/**
  PKCS#7 padding as in section 6.3 of RFC 5652, with the errors of the original.
*/
module Pkcs7 {

  newtype byte = x: int | 0 <= x < 256

  type Bytes = seq<byte>

  datatype PadError = BadBlockSize | InvalidLength | InvalidPadding
  datatype Padded = Ok(data: Bytes) | Err(error: PadError)

  function Repeat(b: byte, n: nat): (r: Bytes)
    ensures |r| == n && forall i | 0 <= i < n :: r[i] == b
  {
    seq(n, _ => b)
  }

  function Pad(data: Bytes, blockSize: int): Padded {
    if blockSize <= 0 || blockSize > 255 then Err(BadBlockSize)
    else
      var n := blockSize - |data| % blockSize;
      Ok(data + Repeat(n as byte, n))
  }

  function Unpad(padded: Bytes, blockSize: int): Padded {
    if blockSize <= 0 || blockSize > 255 then Err(BadBlockSize)
    else if padded == [] then Err(InvalidPadding)
    else if |padded| % blockSize != 0 then Err(InvalidLength)
    else
      var n := padded[|padded| - 1] as int;
      if n == 0 || n > blockSize then Err(InvalidPadding)
      else if n > |padded| || padded[|padded| - n..] != Repeat(n as byte, n) then Err(InvalidPadding)
      else Ok(padded[..|padded| - n])
  }

  lemma PaddedLength(data: Bytes, blockSize: int)
    requires 1 <= blockSize <= 255
    ensures var p := Pad(data, blockSize);
            && p.Ok? && |p.data| % blockSize == 0
            && |data| < |p.data| <= |data| + blockSize
  {
    var n := blockSize - |data| % blockSize;
    assert |data| + n == blockSize * (|data| / blockSize + 1);
    MultipleIsZero(|data| / blockSize + 1, blockSize);
  }

  lemma MultipleIsZero(q: nat, k: int)
    requires k > 0
    ensures (k * q) % k == 0
  {
    RemainderOf(q, 0, k);
  }

  lemma ProductAtLeast(k: int, d: int)
    requires k > 0 && d >= 0
    ensures k * d >= 0
  {
  }

  lemma ProductIsBig(k: int, d: int)
    requires k > 0 && d != 0
    ensures k * d >= k || k * d <= -k
  {
    if d >= 1 {
      ProductAtLeast(k, d - 1);
      assert k * d == k + k * (d - 1);
    } else {
      ProductAtLeast(k, -1 - d);
      assert k * d == -k - k * (-1 - d);
    }
  }

  lemma RemainderOf(q: int, r: int, k: int)
    requires 0 <= r < k
    ensures (k * q + r) % k == r
  {
    var x := k * q + r;
    var p := x / k;
    assert x == k * p + x % k;
    assert k * (q - p) == k * q - k * p;
    if q != p {
      ProductIsBig(k, q - p);
    }
  }

  /** How many bytes padding adds, worked out from either end. */
  lemma PaddingLength(total: nat, n: int, blockSize: int)
    requires 1 <= n <= blockSize && n <= total && total % blockSize == 0
    ensures blockSize - (total - n) % blockSize == n
  {
    var q := total / blockSize;
    assert total == blockSize * q;
    assert total - n == blockSize * (q - 1) + (blockSize - n);
    RemainderOf(q - 1, blockSize - n, blockSize);
  }

  /** Unpadding a padded string gives the string back. */
  lemma UnpadAfterPad(data: Bytes, blockSize: int)
    requires 1 <= blockSize <= 255
    ensures Unpad(Pad(data, blockSize).data, blockSize) == Ok(data)
  {
    var p := Pad(data, blockSize).data;
    PaddedLength(data, blockSize);
    var n := blockSize - |data| % blockSize;
    assert p[|p| - n..] == Repeat(n as byte, n) && p[..|p| - n] == data;
  }

  /** Whatever unpads is the padding of what it unpads to: no two paddings of one string exist. */
  lemma PadAfterUnpad(padded: Bytes, blockSize: int)
    requires Unpad(padded, blockSize).Ok?
    ensures Pad(Unpad(padded, blockSize).data, blockSize) == Ok(padded)
  {
    var n := padded[|padded| - 1] as int;
    PaddingLength(|padded|, n, blockSize);
    assert padded == padded[..|padded| - n] + padded[|padded| - n..];
  }

  /** Unpadding succeeds on exactly the paddings. */
  lemma UnpadsIff(padded: Bytes, data: Bytes, blockSize: int)
    requires 1 <= blockSize <= 255
    ensures Unpad(padded, blockSize) == Ok(data) <==> Pad(data, blockSize) == Ok(padded)
  {
    UnpadAfterPad(data, blockSize);
    if Unpad(padded, blockSize) == Ok(data) {
      PadAfterUnpad(padded, blockSize);
    }
  }
}
