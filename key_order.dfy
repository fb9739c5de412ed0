/**
 * The insertion order of a JavaScript `Map`'s keys, and the round-robin walk over it that passes the
 * game-master role from one participant to the next.
 */
module KeyOrder {

  predicate NoDuplicates<T(==)>(s: seq<T>) {
    forall i, j :: 0 <= i < j < |s| ==> s[i] != s[j]
  }

  /** `indexOf`: the first position of `x` in `s`, or -1 when `x` does not occur. */
  function IndexOf<T(==)>(s: seq<T>, x: T): (r: int)
    ensures -1 <= r < |s|
    ensures r == -1 <==> x !in s
    ensures r >= 0 ==> s[r] == x && x !in s[..r]
  {
    if s == [] then -1
    else if s[0] == x then 0
    else
      var j := IndexOf(s[1..], x);
      assert s == [s[0]] + s[1..];
      if j == -1 then -1
      else
        assert s[..j + 1] == [s[0]] + s[1..][..j];
        j + 1
  }

  /** In a list without repeats, the position of an element is the one it is found at. */
  lemma IndexOfUnique<T>(s: seq<T>, i: int)
    requires NoDuplicates(s) && 0 <= i < |s|
    ensures IndexOf(s, s[i]) == i
  {
  }

  /**
   * The key order after `set(x, ...)`: an existing key keeps its place, a new key goes last.
   */
  function KeysAfterSet<T(==)>(keys: seq<T>, x: T): (r: seq<T>)
    ensures keys <= r && |r| <= |keys| + 1
    ensures x in r && forall i :: 0 <= i < |r| ==> r[i] in keys || r[i] == x
    ensures NoDuplicates(keys) ==> NoDuplicates(r)
  {
    if x in keys then keys else keys + [x]
  }

  /** `x mod n` for `x` below `2 * n`: the wrap-around of a position that moved less than one round. */
  function Wrap(x: int, n: int): int {
    if x < n then x else x - n
  }

  lemma ModSmall(x: int, n: int)
    requires 0 < n && 0 <= x < 2 * n
    ensures x % n == Wrap(x, n)
  {
    if x >= n {
      assert x == 1 * n + (x - n);
    }
  }

  /**
   * The key after `current`, wrapping from the last key to the first. A `current` that is not a key
   * has index -1 and so is followed by the first key.
   */
  function NextKey<T(==)>(keys: seq<T>, current: T): (next: T)
    requires keys != []
    ensures next in keys
    ensures current !in keys ==> next == keys[0]
  {
    keys[(IndexOf(keys, current) + 1) % |keys|]
  }

  /** Without repeated keys, the key after position `i` is at position `i + 1`, or at 0 after the last. */
  lemma NextKeyAt<T>(keys: seq<T>, i: int)
    requires NoDuplicates(keys) && 0 <= i < |keys|
    ensures NextKey(keys, keys[i]) == keys[Wrap(i + 1, |keys|)]
    ensures i + 1 < |keys| ==> NextKey(keys, keys[i]) == keys[i + 1]
    ensures i + 1 == |keys| ==> NextKey(keys, keys[i]) == keys[0]
    ensures |keys| == 1 ==> NextKey(keys, keys[i]) == keys[i]
  {
    IndexOfUnique(keys, i);
    ModSmall(i + 1, |keys|);
  }

  /** The key reached from `start` after `k` steps of `NextKey`. */
  function Rotate<T(==)>(keys: seq<T>, start: T, k: nat): T
    requires keys != []
    decreases k
  {
    if k == 0 then start else Rotate(keys, NextKey(keys, start), k - 1)
  }

  /** Up to one round of rotations from position `i` lands on position `i + k`, wrapped around. */
  lemma {:induction false} RotateAt<T>(keys: seq<T>, i: int, k: nat)
    requires NoDuplicates(keys) && 0 <= i < |keys| && k <= |keys|
    ensures Rotate(keys, keys[i], k) == keys[Wrap(i + k, |keys|)]
    decreases k
  {
    if k > 0 {
      NextKeyAt(keys, i);
      RotateAt(keys, Wrap(i + 1, |keys|), k - 1);
    }
  }

  /** Rotating `a` times and then `b` times is rotating `a + b` times. */
  lemma {:induction false} RotateAdd<T>(keys: seq<T>, start: T, a: nat, b: nat)
    requires keys != []
    ensures Rotate(keys, start, a + b) == Rotate(keys, Rotate(keys, start, a), b)
    decreases a
  {
    if a > 0 {
      RotateAdd(keys, NextKey(keys, start), a - 1, b);
    }
  }

  /** After as many rotations as there are keys, the role is back where it started. */
  lemma FullRoundReturns<T>(keys: seq<T>, i: int)
    requires NoDuplicates(keys) && 0 <= i < |keys|
    ensures Rotate(keys, keys[i], |keys|) == keys[i]
  {
    RotateAt(keys, i, |keys|);
  }

  /** The rotation repeats with a period of one round. */
  lemma RoundIsAPeriod<T>(keys: seq<T>, i: int, k: nat)
    requires NoDuplicates(keys) && 0 <= i < |keys|
    ensures Rotate(keys, keys[i], |keys| + k) == Rotate(keys, keys[i], k)
  {
    RotateAdd(keys, keys[i], |keys|, k);
    FullRoundReturns(keys, i);
  }

  /** Every key is reached from every other within one round. */
  lemma EveryKeyGetsATurn<T>(keys: seq<T>, i: int, j: int)
    requires NoDuplicates(keys) && 0 <= i < |keys| && 0 <= j < |keys|
    ensures var k := if i <= j then j - i else j + |keys| - i;
            k < |keys| && Rotate(keys, keys[i], k) == keys[j]
  {
    var k := if i <= j then j - i else j + |keys| - i;
    RotateAt(keys, i, k);
  }

  /** Within one round no key is reached twice. */
  lemma NoKeyTwiceInARound<T>(keys: seq<T>, i: int, k1: nat, k2: nat)
    requires NoDuplicates(keys) && 0 <= i < |keys|
    requires k1 < k2 < |keys|
    ensures Rotate(keys, keys[i], k1) != Rotate(keys, keys[i], k2)
  {
    RotateAt(keys, i, k1);
    RotateAt(keys, i, k2);
  }
}
