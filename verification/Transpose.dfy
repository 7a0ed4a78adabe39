/** The beamformer's blocked transposes. Elements are opaque; two neighbours move as one vector. */
module Transpose {

  // ---- which rows carry a stave

  /** The stave map is strictly increasing into the virtual staves. */
  predicate StaveMap(map_: seq<nat>, rows: nat) {
    (forall a, b | 0 <= a < b < |map_| :: map_[a] < map_[b]) && (forall a | 0 <= a < |map_| :: map_[a] < rows)
  }

  function Bit(map_: seq<nat>, i: int): nat {
    if exists a | 0 <= a < |map_| :: map_[a] == i then 1 else 0
  }

  /** Two bits for each pair of rows: the even row's above the odd row's. */
  predicate Exact(map_: seq<nat>, table: seq<nat>) {
    forall k | 0 <= k < |table| :: table[k] == 2 * Bit(map_, 2 * k) + Bit(map_, 2 * k + 1)
  }

  /** How far the table is right when the rows below `i` have been seen. */
  ghost predicate SoFar(map_: seq<nat>, table: array<nat>, i: nat, transval: nat)
    reads table
  {
    && (forall k | 0 <= k < table.Length && 2 * k + 1 < i :: table[k] == 2 * Bit(map_, 2 * k) + Bit(map_, 2 * k + 1))
    && transval < 4 && (i > 0 ==> transval % 2 == Bit(map_, i - 1))
  }

  /** Between two neighbouring staves of the map there is none. */
  lemma NothingBetween(map_: seq<nat>, rows: nat, stave: nat, i: nat)
    requires StaveMap(map_, rows) && stave <= |map_| && (stave > 0 ==> map_[stave - 1] < i)
    requires stave < |map_| ==> i <= map_[stave]
    ensures Bit(map_, i) == if stave < |map_| && i == map_[stave] then 1 else 0
  {
    if Bit(map_, i) == 1 {
      var a :| 0 <= a < |map_| && map_[a] == i;
    }
  }

  /** Enter the pair that ends with row `i`, if one does. */
  method EnterRow(map_: seq<nat>, rows: nat, table: array<nat>, i: nat, transval: nat)
    requires table.Length == rows / 2 && i < rows && rows % 2 == 0
    requires transval < 4 && transval % 2 == Bit(map_, i) && (i > 0 ==> transval / 2 == Bit(map_, i - 1))
    requires forall k | 0 <= k < table.Length && 2 * k + 1 < i ::
         table[k] == 2 * Bit(map_, 2 * k) + Bit(map_, 2 * k + 1)
    modifies table
    ensures SoFar(map_, table, i + 1, transval)
  {
    if i % 2 == 1 {
      table[i / 2] := transval;
    }
  }

  method MakeTransposeIndices(map_: seq<nat>, rows: nat) returns (table: array<nat>)
    requires StaveMap(map_, rows) && rows % 2 == 0
    ensures fresh(table) && table.Length == rows / 2 && Exact(map_, table[..])
  {
    table := new nat[rows / 2];
    var transval: nat := 0;
    var i: nat := 0;
    var stave := 0;
    while stave < |map_|
      invariant 0 <= stave <= |map_| && 0 <= i <= rows && SoFar(map_, table, i, transval)
      invariant i == if stave == 0 then 0 else map_[stave - 1] + 1
    {
      while true
        invariant 0 <= i <= map_[stave] && SoFar(map_, table, i, transval)
        invariant stave > 0 ==> map_[stave - 1] < i
        decreases map_[stave] - i
      {
        NothingBetween(map_, rows, stave, i);
        transval := (transval * 2 + (if i == map_[stave] then 1 else 0)) % 4;
        EnterRow(map_, rows, table, i, transval);
        i := i + 1;
        if transval % 2 == 1 {
          break;
        }
      }
      stave := stave + 1;
    }
    while i < rows
      invariant i <= rows && SoFar(map_, table, i, transval)
      invariant stave == |map_| && (stave > 0 ==> map_[stave - 1] < i)
    {
      NothingBetween(map_, rows, stave, i);
      transval := transval * 2 % 4;
      EnterRow(map_, rows, table, i, transval);
      i := i + 1;
    }
  }

  // ---- moving pairs

  class Beamformer<T(0)> {
    const zero: T

    constructor (zero: T)
      ensures this.zero == zero
    {
      this.zero := zero;
    }

    /** The reference: transposed, with the rows that carry no stave read as zero. */
    ghost function Wanted(in_: array2<T>, map_: seq<nat>, c: nat, r: nat): T
      requires r < in_.Length0 && c < in_.Length1
      reads in_
    {
      if Bit(map_, r) == 1 then in_[r, c] else zero
    }

    /** The output cells of rows [r0, r1) and columns [c0, c1) of the input are right. */
    ghost predicate Right(in_: array2<T>, out: array2<T>, map_: seq<nat>, r0: nat, r1: nat, c0: nat, c1: nat)
      requires out.Length0 == in_.Length1 && out.Length1 == in_.Length0 && r1 <= in_.Length0 && c1 <= in_.Length1
      reads in_, out
    {
      forall r, c | r0 <= r < r1 && c0 <= c < c1 :: out[c, r] == Wanted(in_, map_, c, r)
    }

    /** The vectors x and y at column pair `j`, unpacked low and high into the two output rows. */
    method Unpack(in_: array2<T>, out: array2<T>, t: nat, ii: nat, j: nat)
      requires in_ != out && out.Length0 == in_.Length1 && out.Length1 == in_.Length0
      requires 2 * ii + 1 < in_.Length0 && 2 * j + 1 < in_.Length1
      modifies out
      ensures forall c, r | 0 <= c < out.Length0 && 0 <= r < out.Length1 ::
                out[c, r] == if (c == 2 * j || c == 2 * j + 1) && (r == 2 * ii || r == 2 * ii + 1)
                             then (if (r == 2 * ii && t / 2 % 2 == 1)
                               || (r == 2 * ii + 1 && t % 2 == 1) then in_[r, c] else zero)
                             else old(out[c, r])
    {
      var xlo, xhi := zero, zero;
      var ylo, yhi := zero, zero;
      if t / 2 % 2 == 1 {
        xlo, xhi := in_[2 * ii, 2 * j], in_[2 * ii, 2 * j + 1];
      }
      if t % 2 == 1 {
        ylo, yhi := in_[2 * ii + 1, 2 * j], in_[2 * ii + 1, 2 * j + 1];
      }
      out[2 * j, 2 * ii], out[2 * j, 2 * ii + 1] := xlo, ylo;
      out[2 * j + 1, 2 * ii], out[2 * j + 1, 2 * ii + 1] := xhi, yhi;
    }

    /** One entry of the table: two input rows, eight columns, as four vectors. */
    method Strip(in_: array2<T>, out: array2<T>, map_: seq<nat>, t: nat, ii: nat, j: nat)
      requires in_ != out && out.Length0 == in_.Length1 && out.Length1 == in_.Length0
      requires 2 * ii + 1 < in_.Length0 && 2 * j + 8 <= in_.Length1
      requires t == 2 * Bit(map_, 2 * ii) + Bit(map_, 2 * ii + 1)
      modifies out
      ensures Right(in_, out, map_, 2 * ii, 2 * ii + 2, 2 * j, 2 * j + 8)
      ensures forall c, r | 0 <= c < out.Length0 && 0 <= r < out.Length1
           && !(2 * j <= c < 2 * j + 8 && 2 * ii <= r < 2 * ii + 2) ::
                out[c, r] == old(out[c, r])
    {
      Unpack(in_, out, t, ii, j);
      Unpack(in_, out, t, ii, j + 1);
      Unpack(in_, out, t, ii, j + 2);
      Unpack(in_, out, t, ii, j + 3);
    }

    /**
     * The blocked transpose with scatter: every cell of the output is written, with the
     * transposed element where the row carries a stave and zero where it does not.
     */
    method TransposeScatter(in_: array2<T>, out: array2<T>, map_: seq<nat>, table: array<nat>)
      requires in_ != out && out.Length0 == in_.Length1 && out.Length1 == in_.Length0
      requires in_.Length0 % 16 == 0 && in_.Length1 % 8 == 0
      requires table.Length == in_.Length0 / 2 && Exact(map_, table[..])
      modifies out
      ensures Right(in_, out, map_, 0, in_.Length0, 0, in_.Length1)
    {
      var rows, cols := in_.Length0, in_.Length1;
      var block := rows / 8 / 2;
      var i := 0;
      ghost var done := 0;
      while i < rows / 2
        invariant 0 <= done <= 8 && i == block * done && 2 * i <= rows
        invariant Right(in_, out, map_, 0, 2 * i, 0, cols)
        decreases rows / 2 - i
      {
        NextBlock(block, done, 8);
        ScatterRow(in_, out, map_, table, i, block);
        i, done := i + block, done + 1;
      }
    }

    /** One block of rows, eight columns after eight columns. */
    method ScatterRow(in_: array2<T>, out: array2<T>, map_: seq<nat>, table: array<nat>, i: nat, block: nat)
      requires in_ != out && out.Length0 == in_.Length1 && out.Length1 == in_.Length0
      requires 2 * (i + block) <= in_.Length0 && in_.Length1 % 8 == 0
      requires table.Length == in_.Length0 / 2 && Exact(map_, table[..])
      modifies out
      ensures Right(in_, out, map_, 2 * i, 2 * (i + block), 0, in_.Length1)
      ensures forall c, r | 0 <= c < out.Length0 && 0 <= r < out.Length1 && !(2 * i <= r < 2 * (i + block)) ::
                out[c, r] == old(out[c, r])
    {
      var cols := in_.Length1;
      var j := 0;
      while j < cols / 2
        invariant 0 <= j <= cols / 2 && j % 4 == 0
        invariant Right(in_, out, map_, 2 * i, 2 * (i + block), 0, 2 * j)
        invariant forall c, r | 0 <= c < out.Length0 && 0 <= r < out.Length1 && !(2 * i <= r < 2 * (i + block)) ::
                    out[c, r] == old(out[c, r])
      {
        Block(in_, out, map_, table, i, block, j);
        j := j + 4;
      }
    }

    /** The innermost loop: eight columns of one block of rows. */
    method Block(in_: array2<T>, out: array2<T>, map_: seq<nat>, table: array<nat>, i: nat, block: nat, j: nat)
      requires in_ != out && out.Length0 == in_.Length1 && out.Length1 == in_.Length0
      requires 2 * (i + block) <= in_.Length0 && 2 * j + 8 <= in_.Length1
      requires table.Length == in_.Length0 / 2 && Exact(map_, table[..])
      modifies out
      ensures Right(in_, out, map_, 2 * i, 2 * (i + block), 2 * j, 2 * j + 8)
      ensures forall c, r | 0 <= c < out.Length0 && 0 <= r < out.Length1
                            && !(2 * j <= c < 2 * j + 8 && 2 * i <= r < 2 * (i + block)) :: out[c, r] == old(out[c, r])
    {
      var ii := i;
      while ii < i + block
        invariant i <= ii <= i + block
        invariant Right(in_, out, map_, 2 * i, 2 * ii, 2 * j, 2 * j + 8)
        invariant forall c, r | 0 <= c < out.Length0 && 0 <= r < out.Length1
                                && !(2 * j <= c < 2 * j + 8 && 2 * i <= r < 2 * ii) :: out[c, r] == old(out[c, r])
      {
        assert table[..][ii] == table[ii];
        Strip(in_, out, map_, table[ii], ii, j);
        ii := ii + 1;
      }
    }

    /** The plain blocked transpose. */
    method TransposeMatrix(in_: array2<T>, out: array2<T>, blockM: nat, blockN: nat)
      requires in_ != out && out.Length0 == in_.Length1 && out.Length1 == in_.Length0
      requires blockM >= 2 && blockN >= 2 && blockM % 2 == 0 && blockN % 2 == 0
      requires in_.Length0 % blockM == 0 && in_.Length1 % blockN == 0
      modifies out
      ensures forall r, c | 0 <= r < in_.Length0 && 0 <= c < in_.Length1 :: out[c, r] == in_[r, c]
    {
      var rows, cols := in_.Length0, in_.Length1;
      var m := blockM / 2;
      ghost var a := Blocks(rows, blockM);
      var i := 0;
      ghost var done := 0;
      while i < rows / 2
        invariant 0 <= done <= a && i == m * done && 2 * i <= rows
        invariant forall r, c | 0 <= r < 2 * i && 0 <= c < cols :: out[c, r] == in_[r, c]
        decreases rows / 2 - i
      {
        NextBlock(m, done, a);
        BlockRow(in_, out, i, m, blockN);
        i, done := i + m, done + 1;
      }
    }

    /** One block of rows, block of columns after block of columns. */
    method BlockRow(in_: array2<T>, out: array2<T>, i: nat, m: nat, blockN: nat)
      requires in_ != out && out.Length0 == in_.Length1 && out.Length1 == in_.Length0
      requires blockN >= 2 && blockN % 2 == 0 && in_.Length1 % blockN == 0 && 2 * (i + m) <= in_.Length0
      modifies out
      ensures forall c, r | 0 <= c < out.Length0 && 0 <= r < out.Length1 ::
                out[c, r] == if 2 * i <= r < 2 * (i + m) then in_[r, c] else old(out[c, r])
    {
      var cols := in_.Length1;
      var n := blockN / 2;
      ghost var a := Blocks(cols, blockN);
      var j := 0;
      ghost var done := 0;
      while j < cols / 2
        invariant 0 <= done <= a && j == n * done && 2 * j <= cols
        invariant forall c, r | 0 <= c < out.Length0 && 0 <= r < out.Length1 ::
                    out[c, r] == if c < 2 * j && 2 * i <= r < 2 * (i + m) then in_[r, c] else old(out[c, r])
        decreases cols / 2 - j
      {
        NextBlock(n, done, a);
        PlainBlock(in_, out, i, m, j, n);
        j, done := j + n, done + 1;
      }
    }

    method PlainBlock(in_: array2<T>, out: array2<T>, i: nat, m: nat, j: nat, n: nat)
      requires in_ != out && out.Length0 == in_.Length1 && out.Length1 == in_.Length0
      requires 2 * (i + m) <= in_.Length0 && 2 * (j + n) <= in_.Length1
      modifies out
      ensures forall c, r | 0 <= c < out.Length0 && 0 <= r < out.Length1 ::
                out[c, r] == if 2 * j <= c < 2 * (j + n) && 2 * i <= r < 2 * (i + m) then in_[r, c] else old(out[c, r])
    {
      var ii := i;
      while ii < i + m
        invariant i <= ii <= i + m
        invariant forall c, r | 0 <= c < out.Length0 && 0 <= r < out.Length1 ::
                    out[c, r] == if 2 * j <= c < 2 * (j + n) && 2 * i <= r < 2 * ii then in_[r, c] else old(out[c, r])
      {
        var jj := j;
        while jj < j + n
          invariant j <= jj <= j + n
          invariant forall c, r | 0 <= c < out.Length0 && 0 <= r < out.Length1 ::
                      out[c, r] == if (2 * j <= c < 2 * (j + n) && 2 * i <= r < 2 * ii)
                                      || (2 * j <= c < 2 * jj && 2 * ii <= r < 2 * ii + 2)
                                   then in_[r, c] else old(out[c, r])
        {
          Unpack(in_, out, 3, ii, jj);
          jj := jj + 1;
        }
        ii := ii + 1;
      }
    }
  }

  /** How many blocks there are, halves counted in vectors. */
  ghost function Blocks(total: nat, block: nat): (k: nat)
    requires block >= 2 && block % 2 == 0 && total % block == 0
    ensures total / 2 == block / 2 * k && total % 2 == 0
  {
    var k := total / block;
    assert total == block * k && block == 2 * (block / 2);
    assert total == 2 * (block / 2 * k);
    k
  }

  lemma MulMonotone(h: nat, a: nat, b: nat)
    requires a <= b
    ensures h * a <= h * b
  {
  }

  lemma NextBlock(h: nat, done: nat, all: nat)
    requires h > 0 && h * done < h * all
    ensures done + 1 <= all && h * (done + 1) == h * done + h && h * (done + 1) <= h * all
  {
    if done >= all {
      MulMonotone(h, all, done);
    }
    MulMonotone(h, done + 1, all);
  }
}
