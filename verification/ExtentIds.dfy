/**
 Extent ids: the blob's id, a dot, and the extent's index in decimal.
 */
module ExtentIds {

  function Digit(d: nat): char
    requires d < 10
  {
    "0123456789"[d]
  }

  function Digits(n: nat): (s: string)
    ensures s != [] && '.' !in s
  {
    if n < 10 then [Digit(n)] else Digits(n / 10) + [Digit(n % 10)]
  }

  function GenerateExtentId(blob: string, index: nat): string
  {
    blob + "." + Digits(index)
  }

  /** What stands before the first dot, or everything if there is none. */
  function GetBlobId(id: string): string
  {
    if id == [] || id[0] == '.' then [] else [id[0]] + GetBlobId(id[1..])
  }

  /** The conversion of a signed argument to the unsigned 64-bit index. */
  function ToIndex(i: int): nat
  {
    i % 0x1_0000_0000_0000_0000
  }

  lemma ToIndexInjective(i: int, j: int)
    requires ToIndex(i) == ToIndex(j) && i <= j < i + 0x1_0000_0000_0000_0000
    ensures i == j
  {
  }

  lemma {:induction false} PrefixBeforeDot(blob: string, rest: string)
    ensures GetBlobId(blob + "." + rest) == blob <==> '.' !in blob
  {
    var id := blob + "." + rest;
    if blob == [] {
      assert id[0] == '.';
    } else {
      assert id[1..] == blob[1..] + "." + rest;
      assert blob == [blob[0]] + blob[1..];
      PrefixBeforeDot(blob[1..], rest);
    }
  }

  /** The blob id is recovered from an extent id exactly for blob ids without a dot. */
  lemma BlobIdRecoveredIff(blob: string, index: nat)
    ensures GetBlobId(GenerateExtentId(blob, index)) == blob <==> '.' !in blob
  {
    PrefixBeforeDot(blob, Digits(index));
  }

  lemma {:induction false} DigitsInjective(m: nat, n: nat)
    requires Digits(m) == Digits(n)
    ensures m == n
  {
    if m < 10 || n < 10 {
      assert |Digits(m)| == 1 <==> m < 10;
      assert |Digits(n)| == 1 <==> n < 10;
      assert Digits(m)[0] == Digits(n)[0];
    } else {
      var a, b := Digits(m), Digits(n);
      assert a[..|a| - 1] == Digits(m / 10) && b[..|b| - 1] == Digits(n / 10);
      assert a[|a| - 1] == Digit(m % 10) && b[|b| - 1] == Digit(n % 10);
      DigitsInjective(m / 10, n / 10);
    }
  }

  lemma NoLaterDot(a: string, x: string)
    requires '.' !in x
    ensures forall k :: |a| < k < |a + "." + x| ==> (a + "." + x)[k] != '.'
  {
  }

  /** Two strings cut at their last dot have the same parts if they are the same. */
  lemma SameAtLastDot(a: string, x: string, b: string, y: string)
    requires a + "." + x == b + "." + y && '.' !in x && '.' !in y
    ensures a == b && x == y
  {
    var s, t := a + "." + x, b + "." + y;
    assert s[|a|] == '.' && t[|b|] == '.';
    NoLaterDot(a, x);
    NoLaterDot(b, y);
    assert a == s[..|a|] && b == t[..|b|];
    assert x == s[|a| + 1..] && y == t[|b| + 1..];
  }

  /** Extent ids are injective in the blob and the index, for all blob ids. */
  lemma ExtentIdInjective(blob: string, i: nat, blob': string, j: nat)
    requires GenerateExtentId(blob, i) == GenerateExtentId(blob', j)
    ensures blob == blob' && i == j
  {
    SameAtLastDot(blob, Digits(i), blob', Digits(j));
    DigitsInjective(i, j);
  }

  /** The number that a string of digits shows. */
  function Value(s: string): int
  {
    if s == [] then 0 else 10 * Value(s[..|s| - 1]) + (s[|s| - 1] as int - '0' as int)
  }

  lemma {:induction false} DigitsRead(n: nat)
    ensures Value(Digits(n)) == n
  {
    var s := Digits(n);
    if n >= 10 {
      assert s[..|s| - 1] == Digits(n / 10);
      DigitsRead(n / 10);
    } else {
      assert s[..|s| - 1] == [];
    }
  }

  /** The index is read back from what stands behind the blob id and a dot. */
  lemma IndexRecovered(blob: string, index: nat)
    ensures var id := GenerateExtentId(blob, index);
            id[..|blob| + 1] == blob + "." && Value(id[|blob| + 1..]) == index
  {
    assert GenerateExtentId(blob, index)[|blob| + 1..] == Digits(index);
    DigitsRead(index);
  }
}
