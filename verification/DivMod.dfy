/** The div/mod facts the ring arithmetic rests on, for symbolic block sizes and ring lengths. */
module DivMod {

  /** Position `i` of an endless sequence, laid out on a ring of `n` slots. */
  function Wrap(i: nat, n: nat): (b: nat)
    requires 1 <= n
    ensures b < n
  {
    i % n
  }

  /** How many whole rounds of `n` lie before position `i`. */
  function Rounds(i: nat, n: nat): (q: nat)
    requires 1 <= n
  {
    i / n
  }

  /** Row-major index of column `col` of row `row`, in rows of `width`. */
  function Cell(row: nat, width: nat, col: nat): nat {
    row * width + col
  }

  lemma MulMono(n: int, a: int, b: int)
    requires 0 <= n && a <= b
    ensures n * a <= n * b
  {
  }

  lemma MulStep(n: int, a: int)
    ensures n * (a + 1) == n * a + n
  {
  }

  /** Quotient and remainder are determined by `m == n*q + r` with `r` in range. */
  lemma DivModUnique(m: int, n: int, q: int, r: int)
    requires 0 < n && m == n * q + r && 0 <= r < n
    ensures m / n == q && m % n == r
  {
    var q', r' := m / n, m % n;
    assert m == n * q' + r';
    if q' > q {
      MulMono(n, q + 1, q');
      MulStep(n, q);
    } else if q' < q {
      MulMono(n, q' + 1, q);
      MulStep(n, q');
    }
  }

  lemma ModSmall(x: int, n: int)
    requires 0 <= x < n
    ensures x / n == 0 && x % n == x
  {
    DivModUnique(x, n, 0, x);
  }

  lemma ModSuccessor(a: nat, n: nat)
    requires 1 <= n
    ensures (a + 1) % n == (a % n + 1) % n
    ensures (a + 1) % n == if a % n == n - 1 then 0 else a % n + 1
  {
    var q, r := a / n, a % n;
    assert a == n * q + r;
    if r == n - 1 {
      MulStep(n, q);
      DivModUnique(a + 1, n, q + 1, 0);
      DivModUnique(r + 1, n, 1, 0);
    } else {
      DivModUnique(a + 1, n, q, r + 1);
      ModSmall(r + 1, n);
    }
  }

  /** Numbers less than `n` apart have different remainders. */
  lemma ModDistinct(i: nat, j: nat, n: nat)
    requires i < j < i + n
    ensures i % n != j % n
  {
    var q, r, q', r' := i / n, i % n, j / n, j % n;
    assert i == n * q + r && j == n * q' + r';
    if r == r' {
      if q' <= q {
        MulMono(n, q', q);
      } else {
        MulMono(n, q + 1, q');
        MulStep(n, q);
      }
    }
  }

  /** Moving `m` up by `d` whole blocks of `n`, and rounding down to a block. */
  lemma AdvanceBlocks(m: nat, n: nat, d: nat)
    requires 1 <= n
    ensures (m + n * d) / n == m / n + d
    ensures m + n * d - (m + n * d) % n == n * (m / n + d)
  {
    var q, r := m / n, m % n;
    Distribute(n, q, d);
    DivModUnique(m + n * d, n, q + d, r);
  }

  lemma Distribute(n: int, a: int, b: int)
    ensures n * (a + b) == n * a + n * b
  {
  }

  /** Where the rounded-down value lies relative to `m`. */
  lemma AdvancedBounds(m: nat, n: nat, d: nat)
    requires 1 <= n
    ensures m < n * (m / n + d) + n
    ensures n * (m / n + d) <= m + n * d
    ensures m <= n * (m / n + d) <==> d != 0 || m % n == 0
  {
    var q := m / n;
    Distribute(n, q, d);
    MulMono(n, 0, d);
    if d != 0 {
      MulMono(n, 1, d);
    }
  }

  /** Row-major indices stay in range, and so do whole rows. */
  lemma CellInRange(row: nat, width: nat, col: nat, rows: nat)
    requires row < rows && col < width
    ensures Cell(row, width, col) < rows * width
    ensures Cell(row, width, 0) + width <= rows * width
  {
    MulMono(width, row + 1, rows);
    MulStep(width, row);
  }

  /** Row and column of a row-major index, taken apart again. */
  lemma CellParts(row: nat, width: nat, col: nat)
    requires col < width
    ensures Rounds(Cell(row, width, col), width) == row && Wrap(Cell(row, width, col), width) == col
  {
    DivModUnique(Cell(row, width, col), width, row, col);
  }

  /** Every number is the index of its own row and column. */
  lemma CellOf(w: nat, width: nat)
    requires 1 <= width
    ensures w == Cell(Rounds(w, width), width, Wrap(w, width))
  {
    var q, r := w / width, w % width;
    assert w == width * q + r;
  }

  lemma RoundsBelow(w: nat, rows: nat, width: nat)
    requires 1 <= width && w < rows * width
    ensures Rounds(w, width) < rows
  {
    var q := Rounds(w, width);
    CellOf(w, width);
    if rows <= q {
      MulMono(width, rows, q);
    }
  }

  /** Grouping rows of `s` by `n` keeps columns, and counts rows within their group. */
  lemma CellModulo(m: nat, s: nat, r: nat, n: nat)
    requires 1 <= n && r < s
    ensures 1 <= s * n
    ensures Wrap(Cell(m, s, r), s * n) == Cell(Wrap(m, n), s, r)
  {
    var q, t := Rounds(m, n), Wrap(m, n);
    var f, x, y := s * n, Cell(m, s, r), Cell(t, s, r);
    CellOf(m, n);
    CellInRange(t, s, r, n);
    Regroup(n, q, t, s);
    DivModUnique(x, f, q, y);
  }

  lemma Regroup(n: nat, q: nat, t: nat, s: nat)
    ensures Cell(q, n, t) * s == (s * n) * q + t * s
  {
    var a := q * n;
    assert (a + t) * s == a * s + t * s;
    assert a * s == (s * n) * q;
  }
}
