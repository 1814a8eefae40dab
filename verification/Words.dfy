/** Powers of two, and JavaScript's 32-bit operators on numbers. */
module Words {
  function Two(k: nat): (r: nat)
    ensures r >= 1
  {
    if k == 0 then 1 else 2 * Two(k - 1)
  }

  lemma Two32()
    ensures Two(32) == 0x1_0000_0000
  {
    assert Two(8) == 256;
    assert Two(16) == 65536;
    assert Two(24) == 16777216;
  }

  /** What a 32-bit operator takes a number for. */
  function Int32(x: int): (r: int)
    ensures -0x8000_0000 <= r < 0x8000_0000
  {
    (x + 0x8000_0000) % 0x1_0000_0000 - 0x8000_0000
  }

  lemma Int32Is(x: int)
    ensures -0x8000_0000 <= x < 0x8000_0000 ==> Int32(x) == x
    ensures 0x8000_0000 <= x < 0x1_0000_0000 ==> Int32(x) == x - 0x1_0000_0000
    ensures Int32(x) % 2 == x % 2
  {
    Int32Range(x);
    Int32Parity(x);
  }

  lemma Int32Range(x: int)
    ensures -0x8000_0000 <= x < 0x8000_0000 ==> Int32(x) == x
    ensures 0x8000_0000 <= x < 0x1_0000_0000 ==> Int32(x) == x - 0x1_0000_0000
  {
  }

  lemma Int32Parity(x: int)
    ensures Int32(x) % 2 == x % 2
  {
    var y := x + 0x8000_0000;
    SameParity(x, Int32(x), -0x8000_0000 * (y / 0x1_0000_0000));
  }

  /** Adding twice anything keeps the lowest bit. */
  lemma SameParity(x: int, y: int, k: int)
    requires y == x + 2 * k
    ensures y % 2 == x % 2
  {
  }

  /** x >>> 0 */
  function Uint32(x: int): (r: nat)
    ensures r < 0x1_0000_0000
    ensures 0 <= x < 0x1_0000_0000 ==> r == x
  {
    x % 0x1_0000_0000
  }

  /** i ^ 1 */
  function Neighbour(i: int): (r: int)
    ensures i >= 0 <==> r >= 0
  {
    if i % 2 == 0 then i + 1 else i - 1
  }
}
