/**
 * The list operations the three agent screens share: an ordered list of sessions (chats or
 * reports) identified by a numeric id, with a current session beside it. `key` reads a
 * session's id.
 */
module SessionList {

  import opened Wrappers

  /** Every session in the list has its own id. */
  predicate UniqueKeys<T(==)>(xs: seq<T>, key: T -> int) {
    forall i, j :: 0 <= i < j < |xs| ==> key(xs[i]) != key(xs[j])
  }

  /** No session in the list has id `id` (what a fresh `Date.now()` id is assumed to be). */
  predicate Fresh<T(==)>(xs: seq<T>, key: T -> int, id: int) {
    forall i :: 0 <= i < |xs| ==> key(xs[i]) != id
  }

  /** The screen's invariant: a non-empty list with distinct ids holding the current session. */
  predicate Valid<T(==)>(xs: seq<T>, cur: T, key: T -> int) {
    xs != [] && UniqueKeys(xs, key) && cur in xs
  }

  /** `r` can be had from `xs` by dropping items: what is kept stays in its order. */
  predicate Subsequence<T(==)>(r: seq<T>, xs: seq<T>)
    decreases |xs|
  {
    if r == [] then true
    else if xs == [] then false
    else if r[0] == xs[0] then Subsequence(r[1..], xs[1..])
    else Subsequence(r, xs[1..])
  }

  /** `xs.filter(x => x.id !== id)`: the sessions with another id, in their order. */
  function Without<T(==)>(xs: seq<T>, key: T -> int, id: int): (r: seq<T>)
    ensures forall x :: x in r ==> x in xs && key(x) != id
    ensures forall x :: x in xs && key(x) != id ==> x in r
    ensures |r| <= |xs|
    ensures Fresh(xs, key, id) ==> r == xs
  {
    if xs == [] then []
    else if key(xs[0]) != id then [xs[0]] + Without(xs[1..], key, id)
    else Without(xs[1..], key, id)
  }

  /** The filter keeps the sessions it keeps in their order. */
  lemma {:induction false} WithoutInOrder<T>(xs: seq<T>, key: T -> int, id: int)
    ensures Subsequence(Without(xs, key, id), xs)
  {
    if xs != [] {
      WithoutInOrder(xs[1..], key, id);
      var r := Without(xs[1..], key, id);
      if key(xs[0]) != id {
        assert ([xs[0]] + r)[1..] == r;
      } else if r != [] {
        assert r[0] in r;
      }
    }
  }

  /** The head of the filtered list is the first session of `xs` with another id. */
  lemma {:induction false} WithoutHead<T>(xs: seq<T>, key: T -> int, id: int)
    requires Without(xs, key, id) != []
    ensures exists k ::
      0 <= k < |xs| && Without(xs, key, id)[0] == xs[k] && key(xs[k]) != id && forall j :: 0 <= j < k ==> key(xs[j]) == id
  {
    if key(xs[0]) == id {
      WithoutHead(xs[1..], key, id);
      var k :| 0 <= k < |xs[1..]| && Without(xs[1..], key, id)[0] == xs[1..][k] && key(xs[1..][k]) != id
        && forall j :: 0 <= j < k ==> key(xs[1..][j]) == id;
      assert xs[1..][k] == xs[k + 1];
      forall j | 0 <= j < k + 1 ensures key(xs[j]) == id {
        if j > 0 {
          assert key(xs[1..][j - 1]) == id;
        }
      }
    } else {
      assert Without(xs, key, id)[0] == xs[0];
    }
  }

  /** `xs.map(x => x.id === id ? y : x)`. */
  function ReplaceKey<T(==)>(xs: seq<T>, key: T -> int, id: int, y: T): (r: seq<T>)
    ensures |r| == |xs|
    ensures forall i :: 0 <= i < |xs| && key(xs[i]) == id ==> r[i] == y
    ensures forall i :: 0 <= i < |xs| && key(xs[i]) != id ==> r[i] == xs[i]
  {
    if xs == [] then []
    else [if key(xs[0]) == id then y else xs[0]] + ReplaceKey(xs[1..], key, id, y)
  }

  /** `xs.find(x => x.id === id)`: the first session with that id. */
  function Find<T(==)>(xs: seq<T>, key: T -> int, id: int): (r: Option<T>)
    ensures r.Some? ==> r.value in xs && key(r.value) == id
    ensures r.None? ==> Fresh(xs, key, id)
  {
    if xs == [] then None
    else if key(xs[0]) == id then Some(xs[0])
    else Find(xs[1..], key, id)
  }

  /**
   * The delete handler as written: filter by id; when something is left, the current session
   * moves to the head only if it was the one deleted; when nothing is left, the create handler
   * runs, and it prepends the new session to the list as it was BEFORE the filter.
   */
  function DeleteStep<T(==)>(xs: seq<T>, cur: T, key: T -> int, id: int, seed: T): (seq<T>, T) {
    var rest := Without(xs, key, id);
    if rest == [] then ([seed] + xs, seed)
    else (rest, if key(cur) == id then rest[0] else cur)
  }

  /** The re-sync effect: the session with the current id, or else the head of the list. */
  function Resynced<T(==)>(xs: seq<T>, cur: T, key: T -> int): T
    requires xs != []
  {
    Find(xs, key, key(cur)).GetOr(xs[0])
  }

  // ---------------------------------------------------------------- lemmas

  lemma UniqueKeysTail<T>(xs: seq<T>, key: T -> int)
    requires xs != [] && UniqueKeys(xs, key)
    ensures UniqueKeys(xs[1..], key) && Fresh(xs[1..], key, key(xs[0]))
  {
    forall i, j | 0 <= i < j < |xs[1..]| ensures key(xs[1..][i]) != key(xs[1..][j]) {
      assert xs[1..][i] == xs[i + 1] && xs[1..][j] == xs[j + 1];
    }
  }

  /** Filtering keeps ids distinct. */
  lemma {:induction false} WithoutUnique<T>(xs: seq<T>, key: T -> int, id: int)
    requires UniqueKeys(xs, key)
    ensures UniqueKeys(Without(xs, key, id), key)
  {
    if xs != [] {
      UniqueKeysTail(xs, key);
      WithoutUnique(xs[1..], key, id);
      var r := Without(xs[1..], key, id);
      if key(xs[0]) != id {
        var y := [xs[0]] + r;
        forall x | x in r ensures key(x) != key(xs[0]) {
          HeadKeyDistinct(xs, key, x);
        }
        forall i, j | 0 <= i < j < |y| ensures key(y[i]) != key(y[j]) {
          assert y[j] == r[j - 1];
          if i == 0 {
            assert y[j] in r;
          } else {
            assert y[i] == r[i - 1];
          }
        }
      }
    }
  }

  /** A later session never shares the first one's id. */
  lemma HeadKeyDistinct<T>(xs: seq<T>, key: T -> int, x: T)
    requires UniqueKeys(xs, key) && xs != [] && x in xs[1..]
    ensures key(x) != key(xs[0])
  {
    var k :| 0 <= k < |xs[1..]| && xs[1..][k] == x;
    assert xs[k + 1] == x;
  }

  /** Replacing a session by one with the same id keeps ids distinct, and puts the new one in. */
  lemma ReplaceKeyValid<T>(xs: seq<T>, key: T -> int, cur: T, y: T)
    requires Valid(xs, cur, key) && key(y) == key(cur)
    ensures Valid(ReplaceKey(xs, key, key(cur), y), y, key)
  {
    var r := ReplaceKey(xs, key, key(cur), y);
    var k :| 0 <= k < |xs| && xs[k] == cur;
    assert r[k] == y;
    assert forall i :: 0 <= i < |r| ==> key(r[i]) == key(xs[i]);
  }

  /** In a list with distinct ids the current session is the one found by its id. */
  lemma {:induction false} FindMember<T>(xs: seq<T>, key: T -> int, x: T)
    requires UniqueKeys(xs, key) && x in xs
    ensures Find(xs, key, key(x)) == Some(x)
  {
    if xs[0] != x {
      UniqueKeysTail(xs, key);
      assert x in xs[1..];
      FindMember(xs[1..], key, x);
    }
  }

  /** The re-sync effect changes nothing while the screen's invariant holds. */
  lemma ResyncedIsCurrent<T>(xs: seq<T>, cur: T, key: T -> int)
    requires Valid(xs, cur, key)
    ensures Resynced(xs, cur, key) == cur
  {
    FindMember(xs, key, cur);
  }

  /**
   * Deleting keeps the list non-empty, the ids distinct and the current session in the list.
   * The new session's id only needs to be fresh when the filter leaves nothing.
   */
  lemma DeleteStepValid<T>(xs: seq<T>, cur: T, key: T -> int, id: int, seed: T)
    requires Valid(xs, cur, key)
    requires Without(xs, key, id) == [] ==> Fresh(xs, key, key(seed))
    ensures var (ys, c) := DeleteStep(xs, cur, key, id, seed); Valid(ys, c, key)
  {
    var rest := Without(xs, key, id);
    WithoutUnique(xs, key, id);
    if rest == [] {
      PrependFresh(xs, key, seed);
    } else if key(cur) != id {
      assert cur in rest;
    }
  }

  /** A session with a fresh id can go in front of a list with distinct ids. */
  lemma PrependFresh<T>(xs: seq<T>, key: T -> int, seed: T)
    requires UniqueKeys(xs, key) && Fresh(xs, key, key(seed))
    ensures UniqueKeys([seed] + xs, key)
  {
    var ys := [seed] + xs;
    forall i, j | 0 <= i < j < |ys| ensures key(ys[i]) != key(ys[j]) {
      assert ys[j] == xs[j - 1];
      if i > 0 { assert ys[i] == xs[i - 1]; }
    }
  }

  /**
   * When something is left, no session with the deleted id remains, and the current session
   * stays current unless it was the one deleted; then the first session of the old list with
   * another id becomes current.
   */
  lemma DeleteStepRemoves<T>(xs: seq<T>, cur: T, key: T -> int, id: int, seed: T)
    requires Without(xs, key, id) != []
    ensures var (ys, c) := DeleteStep(xs, cur, key, id, seed);
      Fresh(ys, key, id) && (key(cur) != id ==> c == cur) && (key(cur) == id ==> c == ys[0])
    ensures var (ys, c) := DeleteStep(xs, cur, key, id, seed);
      key(cur) == id ==>
        exists k :: 0 <= k < |xs| && c == xs[k] && key(xs[k]) != id && forall j :: 0 <= j < k ==> key(xs[j]) == id
  {
    var ys := Without(xs, key, id);
    WithoutHead(xs, key, id);
    forall i | 0 <= i < |ys| ensures key(ys[i]) != id {
      assert ys[i] in ys;
    }
  }

  /**
   * Deleting the only session does not remove it: the fresh session is prepended to the list
   * as it was before the filter, so the deleted one is still listed, behind the new current one.
   */
  lemma DeleteOnlyKeepsIt<T>(only: T, key: T -> int, seed: T)
    ensures DeleteStep([only], only, key, key(only), seed) == ([seed, only], seed)
  {
    assert [only][1..] == [];
    assert Without([only], key, key(only)) == [];
    assert [seed] + [only] == [seed, only];
  }
}
