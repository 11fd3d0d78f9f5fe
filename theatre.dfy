/**
 * The seating matrix shared by both Screening classes: how it is built from
 * `rows` and `spr` (seats per row) and how its vacant seats are counted.
 */
module Theatre {

  /**
   * One seat. The source stores the integer 0 for an unoccupied seat and
   * intends an occupied seat to hold the id of the booking that took it.
   */
  datatype Cell = Vacant | Occupied(bookingId: string)

  type Row = seq<Cell>
  type Grid = seq<Row>

  /** Python's list repetition `n * [x]`: a non-positive `n` gives the empty list. */
  function Repeat<T>(n: int, x: T): (r: seq<T>)
    ensures |r| == if n <= 0 then 0 else n
    ensures forall i :: 0 <= i < |r| ==> r[i] == x
  {
    if n <= 0 then [] else seq(n, _ => x)
  }

  /**
   * The theatre `rows * [spr * [0]]` as a value. In Python every row of it is
   * the SAME list object, so a write to one seat would show up in every row;
   * no seat is ever written in the modelled code, so the value — `rows`
   * equal rows of `spr` vacant seats — is all that can be observed.
   */
  function EmptyTheatre(rows: int, spr: int): (g: Grid)
    ensures rows >= 0 && spr >= 0 ==> Shaped(g, rows, spr)
    ensures forall i, j :: 0 <= i < |g| && 0 <= j < |g[i]| ==> g[i][j] == Vacant
    ensures forall i, j :: 0 <= i < |g| && 0 <= j < |g| ==> g[i] == g[j]
  {
    Repeat(rows, Repeat(spr, Vacant))
  }

  /** Python's `row.count(0)`: the number of vacant seats in one row. */
  function VacantInRow(row: Row): (n: nat)
    ensures n <= |row|
  {
    if row == [] then 0
    else VacantInRow(row[..|row| - 1]) + (if row[|row| - 1] == Vacant then 1 else 0)
  }

  /** The number of cells of the whole grid. */
  function Capacity(g: Grid): nat
  {
    if g == [] then 0 else Capacity(g[..|g| - 1]) + |g[|g| - 1]|
  }

  /** The number of vacant cells of the whole grid, which never exceeds its number of cells. */
  function VacantSeats(g: Grid): (n: nat)
    ensures n <= Capacity(g)
  {
    if g == [] then 0 else VacantSeats(g[..|g| - 1]) + VacantInRow(g[|g| - 1])
  }

  /** A grid of `rows` rows that each hold `spr` seats. */
  ghost predicate Shaped(g: Grid, rows: int, spr: int)
  {
    |g| == rows && forall i :: 0 <= i < |g| ==> |g[i]| == spr
  }

  /** The row count agrees with the multiset view: the multiplicity of `Vacant`. */
  lemma {:induction false} VacantInRowIsMultiplicity(row: Row)
    ensures VacantInRow(row) == multiset(row)[Vacant]
  {
    if row != [] {
      var init := row[..|row| - 1];
      assert row == init + [row[|row| - 1]];
      VacantInRowIsMultiplicity(init);
    }
  }

  lemma {:induction false} CapacityOfShaped(g: Grid, rows: nat, spr: nat)
    requires Shaped(g, rows, spr)
    ensures Capacity(g) == rows * spr
  {
    if rows > 0 {
      CapacityOfShaped(g[..rows - 1], rows - 1, spr);
    }
  }

  lemma {:induction false} VacantInEmptyRow(n: int)
    ensures VacantInRow(Repeat(n, Vacant)) == if n <= 0 then 0 else n
    decreases if n <= 0 then 0 else n
  {
    if n > 0 {
      assert Repeat(n, Vacant)[..n - 1] == Repeat(n - 1, Vacant);
      VacantInEmptyRow(n - 1);
    }
  }

  lemma RepeatDropLast<T>(n: nat, x: T)
    requires n > 0
    ensures Repeat(n, x)[..n - 1] == Repeat(n - 1, x) && Repeat(n, x)[n - 1] == x
  {
  }

  lemma MultiplyStep(n: int, k: int)
    ensures (n - 1) * k + k == n * k
  {
  }

  lemma {:induction false} VacantInRepeatedRow(n: nat, row: Row)
    ensures VacantSeats(Repeat(n, row)) == n * VacantInRow(row)
  {
    if n > 0 {
      var k := VacantInRow(row);
      calc {
        VacantSeats(Repeat(n, row));
        { RepeatDropLast(n, row); }
        VacantSeats(Repeat(n - 1, row)) + k;
        { VacantInRepeatedRow(n - 1, row); }
        (n - 1) * k + k;
        { MultiplyStep(n, k); }
        n * k;
      }
    }
  }

  /** A freshly built theatre has max(rows, 0) * max(spr, 0) vacant seats. */
  lemma EmptyTheatreVacancy(rows: int, spr: int)
    ensures VacantSeats(EmptyTheatre(rows, spr)) == if rows <= 0 || spr <= 0 then 0 else rows * spr
  {
    VacantInEmptyRow(spr);
    if rows > 0 {
      VacantInRepeatedRow(rows, Repeat(spr, Vacant));
    }
  }

  /**
   * The cached counter `rows * spr` equals the scanned count of a freshly built
   * theatre exactly when the dimensions are not of opposite or both negative
   * sign: e.g. rows = -2, spr = -3 caches 6 over a theatre with no seats.
   */
  lemma CounterMatchesScan(rows: int, spr: int)
    ensures VacantSeats(EmptyTheatre(rows, spr)) == rows * spr
            <==> (rows >= 0 && spr >= 0) || rows == 0 || spr == 0
  {
    EmptyTheatreVacancy(rows, spr);
    if rows < 0 && spr < 0 {
      assert rows * spr == (-rows) * (-spr);
    } else if rows < 0 && spr > 0 {
      assert rows * spr == -((-rows) * spr);
    } else if rows > 0 && spr < 0 {
      assert rows * spr == -(rows * (-spr));
    }
  }

  /**
   * The scan behind both `_count_empty_seats` methods: one pass over the rows,
   * adding each row's `count(0)`.
   */
  method ScanVacantSeats(g: Grid) returns (count: int)
    ensures count == VacantSeats(g)
    ensures 0 <= count <= Capacity(g)
  {
    count := 0;
    for i := 0 to |g|
      invariant count == VacantSeats(g[..i])
    {
      assert g[..i + 1][..i] == g[..i];
      count := count + VacantInRow(g[i]);
    }
    assert g[..|g|] == g;
  }
}
