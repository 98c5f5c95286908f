/** The number fields of a radio frame: unsigned numbers as bytes, high byte first. */
module LoraNumbers {
  type Byte = bv8
  type Bytes = seq<Byte>

  function Power(k: nat): nat {
    if k == 0 then 1 else 256 * Power(k - 1)
  }

  function Number(bytes: Bytes): nat {
    if bytes == [] then 0 else 256 * Number(bytes[..|bytes| - 1]) + bytes[|bytes| - 1] as nat
  }

  // The byte that stands for n, counted up from zero.
  function ByteOf(n: nat): Byte {
    if n == 0 then 0 else ByteOf(n - 1) + 1
  }

  function Digits(n: nat, k: nat): (bytes: Bytes)
    ensures |bytes| == k
  {
    if k == 0 then [] else Digits(n / 256, k - 1) + [ByteOf(n % 256)]
  }

  lemma {:induction false} DigitsTellNumber(n: nat, k: nat)
    requires n < Power(k)
    ensures Number(Digits(n, k)) == n
  {
    if k > 0 {
      assert n / 256 < Power(k - 1);
      DigitsTellNumber(n / 256, k - 1);
      ByteTellsNumber(n % 256);
      var bytes := Digits(n, k);
      assert bytes[..|bytes| - 1] == Digits(n / 256, k - 1);
    }
  }

  lemma OneMore(b: Byte)
    requires b < 255
    ensures (b + 1) as nat == b as nat + 1
  {
  }

  lemma BelowTop(b: Byte)
    requires b as nat < 255
    ensures b < 255
  {
  }

  lemma {:induction false} ByteTellsNumber(n: nat)
    requires n < 256
    ensures ByteOf(n) as nat == n
  {
    if n > 0 {
      ByteTellsNumber(n - 1);
      BelowTop(ByteOf(n - 1));
      OneMore(ByteOf(n - 1));
    }
  }
}
