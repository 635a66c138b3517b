/** The few facts about products and quotients by a variable that the layout needs. */
module Arith {
  lemma CellBelow(i: nat, n: nat, k: nat, w: nat)
    requires i < n && k < w
    ensures i * w + k < n * w
  {
    var d: nat := n - i - 1;
    assert n * w == i * w + w + d * w by {
      assert n == i + 1 + d;
      calc { n * w; (i + 1 + d) * w; i * w + w + d * w; }
    }
    assert d * w >= 0;
  }

  lemma CellUnique(i: nat, k: nat, j: nat, l: nat, w: nat)
    requires k < w && l < w
    requires i * w + k == j * w + l
    ensures i == j && k == l
  {
    if i < j {
      CellBelow(i, j, k, w);
    } else if j < i {
      CellBelow(j, i, l, w);
    }
  }

  /** Division names the cell. */
  lemma CellOf(x: nat, w: nat)
    requires w > 0
    ensures x / w * w <= x < x / w * w + w
    ensures x % w == x - x / w * w
  {
  }

  lemma CellDiv(i: nat, k: nat, w: nat)
    requires k < w
    ensures (i * w + k) / w == i && (i * w + k) % w == k
  {
    var x := i * w + k;
    assert 0 <= i * w;
    CellOf(x, w);
    CellUnique(x / w, x % w, i, k, w);
  }

  /** One cell more. */
  lemma CellMore(x: nat, w: nat)
    requires w > 0
    ensures (x + w) / w == x / w + 1
  {
    CellOf(x, w);
    CellOf(x + w, w);
    CellUnique(x / w + 1, x - x / w * w, (x + w) / w, (x + w) % w, w);
  }

  /** So many cells more. */
  lemma CellsMore(k: nat, x: nat, w: nat)
    requires w > 0
    ensures (k * w + x) / w == k + x / w
  {
    CellOf(x, w);
    assert (k + x / w) * w == k * w + x / w * w;
    CellDiv(k + x / w, x % w, w);
  }

  lemma DivBelow(x: nat, n: nat, w: nat)
    requires w > 0
    ensures x < n * w <==> x / w < n
  {
    CellOf(x, w);
    if x / w < n {
      CellBelow(x / w, n, x % w, w);
    } else {
      var d: nat := x / w - n;
      assert x / w * w == n * w + d * w by {
        calc { x / w * w; (n + d) * w; n * w + d * w; }
      }
      assert d * w >= 0;
    }
  }

  lemma MulOrder(a: nat, b: nat, w: nat)
    ensures a <= b ==> a * w <= b * w
  {
    if a <= b {
      var d: nat := b - a;
      assert b * w == a * w + d * w by {
        calc { b * w; (a + d) * w; a * w + d * w; }
      }
      assert d * w >= 0;
    }
  }
}
