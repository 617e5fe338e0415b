/** The 32-bit integers of C and Rust, and strings that end at their first NUL. */
module Machine {
  const TWO_32: int := 0x1_0000_0000
  const TWO_31: int := 0x8000_0000

  /** The value of an unsigned 32-bit number read as a signed one. */
  function ToSigned(n: nat): (r: int)
    requires n < TWO_32
    ensures -TWO_31 <= r < TWO_31 && (r == n || r == n - TWO_32)
  {
    if n < TWO_31 then n else n - TWO_32
  }

  /** An integer stored in an unsigned 32-bit variable. */
  function AsU32(x: int): int { x % TWO_32 }

  /** An integer stored in a signed 32-bit variable. */
  function AsI32(x: int): int { ToSigned(AsU32(x)) }

  /** Both are the integer itself modulo 2^32, in the range of their type. */
  lemma WrapsAround(x: int)
    ensures 0 <= AsU32(x) <= 0xFFFF_FFFF && (AsU32(x) - x) % 0x1_0000_0000 == 0
    ensures -0x8000_0000 <= AsI32(x) <= 0x7FFF_FFFF && (AsI32(x) - x) % 0x1_0000_0000 == 0
  {
  }

  /** Going through a signed variable loses nothing of an unsigned one, and the other way round. */
  lemma SignedAndBack(x: int)
    ensures AsU32(AsI32(x)) == AsU32(x)
    ensures -TWO_31 <= x < TWO_31 ==> AsI32(x) == x
  {
  }

  /** What is read of `s` when the character `nul` ends a string. */
  function CString<T(==)>(nul: T, s: seq<T>): (r: seq<T>)
    ensures nul !in r
    ensures nul !in s ==> r == s
    ensures nul in s ==> |r| < |s| && s[|r|] == nul && r == s[..|r|]
  {
    if s == [] || s[0] == nul then [] else [s[0]] + CString(nul, s[1..])
  }

  lemma {:induction false} CStringOfTerminated<T>(nul: T, name: seq<T>, more: seq<T>)
    requires nul in name
    ensures CString(nul, name + more) == CString(nul, name)
  {
    assert (name + more)[0] == name[0];
    if name[0] != nul {
      CStringOfTerminated(nul, name[1..], more);
      assert (name + more)[1..] == name[1..] + more;
    }
  }
}
