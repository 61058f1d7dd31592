/**
 * The round-robin album cursor shared by the sequential planner and the
 * asset-metadata iterator: `index = (index + 1) % len(albums)`, starting from -1.
 */
module Cursor {

  /** One step of the cursor over `n` albums. */
  function Advance(n: nat, index: int): (i: nat)
    requires n > 0 && -1 <= index < n
    ensures i < n
    ensures index < n - 1 ==> i == index + 1
    ensures index == n - 1 ==> i == 0
  {
    (index + 1) % n
  }

  /** The album the cursor is on after `k + 1` steps from `index`. */
  function AttemptAlbum(n: nat, index: int, k: nat): (i: nat)
    requires n > 0 && -1 <= index < n
    ensures i < n
    decreases k
  {
    if k == 0 then Advance(n, index) else AttemptAlbum(n, Advance(n, index), k - 1)
  }

  /** Walking `a + 1` steps and then `b + 1` more is walking `a + b + 2` steps. */
  lemma {:induction false} AttemptCompose(n: nat, index: int, a: nat, b: nat)
    requires n > 0 && -1 <= index < n
    ensures AttemptAlbum(n, AttemptAlbum(n, index, a), b) == AttemptAlbum(n, index, a + 1 + b)
    decreases a
  {
    if a > 0 {
      AttemptCompose(n, Advance(n, index), a - 1, b);
    }
  }

  /** Before the wrap-around the cursor simply counts up. */
  lemma {:induction false} AttemptNoWrap(n: nat, index: int, k: nat)
    requires n > 0 && -1 <= index && index + 1 + k < n
    ensures AttemptAlbum(n, index, k) == index + 1 + k
    decreases k
  {
    if k > 0 {
      AttemptNoWrap(n, index + 1, k - 1);
    }
  }

  /** Within `n` steps the cursor visits every album. */
  lemma AttemptCovers(n: nat, index: int, j: nat)
    requires n > 0 && -1 <= index < n && j < n
    ensures exists k :: 0 <= k < n && AttemptAlbum(n, index, k) == j
  {
    if index < j {
      AttemptNoWrap(n, index, j - index - 1);
      assert AttemptAlbum(n, index, j - index - 1) == j;
    } else {
      // Reach the last album, wrap to 0 and walk on to j.
      var toLast := n - 1 - index;
      if toLast == 0 {
        if j == 0 {
          assert AttemptAlbum(n, index, 0) == j;
        } else {
          AttemptNoWrap(n, 0, j - 1);
          AttemptCompose(n, index, 0, j - 1);
          assert AttemptAlbum(n, index, j) == j;
        }
      } else {
        AttemptNoWrap(n, index, toLast - 1);
        assert AttemptAlbum(n, index, toLast - 1) == n - 1;
        AttemptCompose(n, index, toLast - 1, j);
        if j == 0 {
          assert AttemptAlbum(n, n - 1, 0) == 0;
        } else {
          AttemptNoWrap(n, 0, j - 1);
          AttemptCompose(n, n - 1, 0, j - 1);
        }
        assert AttemptAlbum(n, index, toLast + j) == j;
      }
    }
  }
}
