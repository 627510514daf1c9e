/** Bytes and the small sequence vocabulary shared by every module. */
module Bytes {

  newtype Byte = x: int | 0 <= x < 256

  const NUL: Byte := 0

  /** The largest int: counts passed to pbump and gbump are cast to int. */
  const INT_MAX := 0x7fff_ffff

  /** The largest size_t. */
  const SIZE_MAX := 0xffff_ffff_ffff_ffff

  datatype Option<+T> = None | Some(value: T)

  function Min(a: int, b: int): (r: int)
    ensures r <= a && r <= b && (r == a || r == b)
  {
    if a < b then a else b
  }

  function Max(a: int, b: int): (r: int)
    ensures r >= a && r >= b && (r == a || r == b)
  {
    if a < b then b else a
  }

  /** n NUL bytes: what resizing a string or vector of char adds. */
  function Zeros(n: nat): (r: seq<Byte>)
    ensures |r| == n && forall i :: 0 <= i < n ==> r[i] == 0
  {
    seq(n, _ => NUL)
  }

  /** resize on a std::string or a std::vector of char. */
  function Resized(b: seq<Byte>, n: nat): (r: seq<Byte>)
    ensures |r| == n
  {
    if n <= |b| then b[..n] else b + Zeros(n - |b|)
  }
}
