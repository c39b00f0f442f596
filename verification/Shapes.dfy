/** Element counts and byte sizes of tensor shapes. */
module Shapes {

  const WILDCARD_DIM := -1

  type Shape = seq<int>

  function Product(dims: Shape): (p: int)
    ensures dims == [] ==> p == 1
    ensures |dims| == 1 ==> p == dims[0]
    ensures Fixed(dims) ==> p >= 0
  {
    if dims == [] then 1 else Product(dims[..|dims| - 1]) * dims[|dims| - 1]
  }

  /** The number of elements: unknown with a wildcard, and none for a shape
      without dimensions. */
  function ElementCount(dims: Shape): (cnt: int)
    ensures -1 in dims ==> cnt == -1
    ensures dims == [] ==> cnt == 0
    ensures Fixed(dims) && dims != [] ==> cnt == Product(dims)
  {
    if WILDCARD_DIM in dims then -1 else if dims == [] then 0 else Product(dims)
  }

  method GetElementCount(dims: Shape) returns (cnt: int)
    ensures cnt == ElementCount(dims)
    ensures cnt == if -1 in dims then -1 else if dims == [] then 0 else Product(dims)
  {
    hide ElementCount, Product;
    CountIs(dims);
    var first := true;
    cnt := 0;
    var i := 0;
    while i < |dims|
      invariant i <= |dims| && -1 !in dims[..i]
      invariant first == (i == 0) && cnt == ElementCount(dims[..i])
    {
      if dims[i] == WILDCARD_DIM {
        return -1;
      }
      OneMoreDim(dims, i);
      if first {
        cnt := dims[i];
        first := false;
      } else {
        cnt := cnt * dims[i];
      }
      i := i + 1;
    }
    assert dims[..i] == dims;
  }

  lemma {:induction false} CountIs(dims: Shape)
    ensures ElementCount(dims) == if -1 in dims then -1 else if dims == [] then 0 else Product(dims)
  {}

  lemma {:induction false} OneMoreDim(dims: Shape, i: nat)
    requires i < |dims| && -1 !in dims[..i] && dims[i] != -1
    ensures -1 !in dims[..i + 1]
    ensures ElementCount(dims[..i + 1]) == if i == 0 then dims[i] else ElementCount(dims[..i]) * dims[i]
  {
    assert dims[..i + 1][..i] == dims[..i] && dims[..i + 1] == dims[..i] + [dims[i]];
  }

  /** The byte size of a tensor, unknown for elements of variable size. */
  function GetByteSize(typeSize: nat, dims: Shape): (size: int)
    ensures typeSize == 0 || -1 in dims ==> size == -1
    ensures typeSize > 0 && Fixed(dims) ==> size >= 0
    ensures typeSize > 0 && dims == [] ==> size == 0
  {
    if typeSize == 0 then -1
    else if ElementCount(dims) == -1 then -1
    else ElementCount(dims) * typeSize
  }

  predicate Fixed(dims: Shape) {
    forall i | 0 <= i < |dims| :: dims[i] >= 0
  }

  lemma {:induction false} MulMul(x: int, y: int, z: int)
    ensures x * y * z == x * (y * z)
  {}

  lemma {:induction false} ProductConcat(a: Shape, b: Shape)
    ensures Product(a + b) == Product(a) * Product(b)
  {
    if b == [] {
      assert a + b == a;
    } else {
      var b' := b[..|b| - 1];
      ProductConcat(a, b');
      assert (a + b)[..|a + b| - 1] == a + b';
      MulMul(Product(a), Product(b'), b[|b| - 1]);
    }
  }

  /** The bytes of one row of a batch whose rows have the given shape. */
  function RowSize(typeSize: nat, row: Shape): (size: nat)
    requires Fixed(row)
  {
    Product(row) * typeSize
  }

  /** A batch of n rows takes n times the bytes of one row. */
  lemma {:induction false} BatchSize(typeSize: nat, n: nat, row: Shape)
    requires typeSize > 0 && Fixed(row)
    ensures GetByteSize(typeSize, [n] + row) == n * RowSize(typeSize, row)
  {
    ProductConcat([n], row);
  }

  /** And that, for a batch of any size put in front, is its number of elements times the
      bytes of an element. */
  lemma {:induction false} RowBytes(typeSize: nat, row: Shape)
    requires typeSize > 0 && Fixed(row)
    ensures forall s: Shape | |s| == 1 + |row| && s[1..] == row && s[0] >= 0 ::
              GetByteSize(typeSize, s) == s[0] * Product(row) * typeSize
  {
    forall s: Shape | |s| == 1 + |row| && s[1..] == row && s[0] >= 0
      ensures GetByteSize(typeSize, s) == s[0] * Product(row) * typeSize
    {
      assert s == [s[0]] + row;
      ProductConcat([s[0]], row);
    }
  }
}
