/** The size classes of the slab allocator (slab.c) and how the chunks of a zone are laid out. */
module ZoneSize {

  const PAGE: int := 4096
  const NZONES: int := 72
  /** Sizes from here on are not for zones. */
  const MAX_SIZE: int := 16384
  /** sizeof(slab_zone): nine words. */
  const HEADER: int := 36

  function RoundTo(n: nat, unit: nat): (r: nat)
    requires unit > 0
    ensures n <= r < n + unit
  {
    if n % unit == 0 then n else n + unit - n % unit
  }

  /** zoneindex: the index, and the chunk size that the request becomes. */
  function ZoneIndex(n: nat): (int, int) {
    if n < 128 then var c := RoundTo(n, 8); (c / 8 - 1, c)
    else if n < 256 then var c := RoundTo(n, 16); (c / 16 + 7, c)
    else if n < 8192 then
      if n < 512 then var c := RoundTo(n, 32); (c / 32 + 15, c)
      else if n < 1024 then var c := RoundTo(n, 64); (c / 64 + 23, c)
      else if n < 2048 then var c := RoundTo(n, 128); (c / 128 + 31, c)
      else if n < 4096 then var c := RoundTo(n, 256); (c / 256 + 39, c)
      else var c := RoundTo(n, 512); (c / 512 + 47, c)
    else if n < MAX_SIZE then var c := RoundTo(n, 1024); (c / 1024 + 55, c)
    else (0, n)
  }

  /** 8 doubled j times. */
  function Unit(j: nat): (u: int)
    ensures u >= 8
  {
    if j == 0 then 8 else 2 * Unit(j - 1)
  }

  function FamilyOf(i: nat): nat { if i < 16 then 0 else i / 8 - 1 }

  /** The size of the chunks of class i: the first sixteen go up by 8, and each eight after them by twice
      as much as the eight before. */
  function ChunkSize(i: nat): int {
    Unit(FamilyOf(i)) * (i - 8 * FamilyOf(i) + 1)
  }

  lemma Units()
    ensures Unit(0) == 8 && Unit(1) == 16 && Unit(2) == 32 && Unit(3) == 64 && Unit(4) == 128
    ensures Unit(5) == 256 && Unit(6) == 512 && Unit(7) == 1024 && Unit(8) == 2048
  {
    assert Unit(3) == 2 * Unit(2);
    assert Unit(6) == 2 * Unit(5);
  }

  /** The classes of one unit; the last of them is also a multiple of the next unit. */
  lemma Family(j: nat, q: nat)
    requires 1 <= q <= 16 && (j > 0 ==> 8 <= q)
    ensures 8 * j + q >= 1 && ChunkSize(8 * j + q - 1) == Unit(j) * q
  {
    hide Unit, FamilyOf, ChunkSize;
    FamilyIndex(j, q);
    if j > 0 && q == 8 {
      UnitTwice(j);
      ChunkIs(8 * j + q - 1, j - 1, 16);
    } else {
      ChunkIs(8 * j + q - 1, j, q);
    }
  }

  lemma ChunkIs(i: nat, j: nat, q: int)
    requires j == FamilyOf(i) && q == i - 8 * j + 1
    ensures ChunkSize(i) == Unit(j) * q
  {
  }

  lemma FamilyIndex(j: nat, q: nat)
    requires 1 <= q <= 16 && (j > 0 ==> 8 <= q)
    ensures 8 * j + q >= 1
    ensures var k := FamilyOf(8 * j + q - 1); if j > 0 && q == 8 then k == j - 1 else k == j
  {
  }

  lemma RoundDiv(n: nat, u: nat)
    requires u > 0 && n > 0
    ensures var q := RoundTo(n, u) / u; RoundTo(n, u) == q * u && 1 <= q && (q - 1) * u < n <= q * u
  {
    var q, r := n / u, n % u;
    assert n == q * u + r;
    var c := if r == 0 then q else q + 1;
    assert RoundTo(n, u) == c * u;
    Quotient(c, u);
  }

  lemma Quotient(q: nat, u: nat)
    requires u > 0
    ensures q * u / u == q
  {
    var a := q * u;
    DivBounds(a, u);
    if a / u < q { MulLess(a / u + 1, q, u); }
  }

  /** A request between 8 and 16 units, or below 16 of the smallest, gets the smallest class that holds it. */
  lemma FamilyFits(n: nat, j: nat)
    requires 0 < n && n < 16 * Unit(j) && (j > 0 ==> 8 * Unit(j) <= n)
    ensures var c := RoundTo(n, Unit(j)); var i := c / Unit(j) + 8 * j - 1;
            0 <= i <= 8 * j + 15 && c == ChunkSize(i) && n <= c && (i > 0 ==> ChunkSize(i - 1) < n)
  {
    hide ChunkSize, Unit, RoundTo;
    var u, c := Unit(j), RoundTo(n, Unit(j));
    var q := c / u;
    RoundDiv(n, u);
    if q > 16 { MulLess(16, q - 1, u); }
    if j > 0 && q < 8 { MulLess(q, 7, u); }
    Family(j, q);
    if j > 0 && q == 8 {
      Family(j - 1, 15);
      assert Unit(j) == 2 * Unit(j - 1) by { UnitTwice(j); }
    } else if q > 1 {
      Family(j, q - 1);
    }
  }

  lemma UnitTwice(j: nat)
    requires j > 0
    ensures Unit(j) == 2 * Unit(j - 1)
  {
  }

  /** A request gets the smallest class that holds it. */
  lemma ZoneIndexFits(n: nat)
    requires 0 < n < MAX_SIZE
    ensures var (i, c) := ZoneIndex(n);
            0 <= i < NZONES && c == ChunkSize(i) && n <= c && (i > 0 ==> ChunkSize(i - 1) < n)
  {
    hide ChunkSize, RoundTo, Unit;
    Units();
    if n < 128 { FamilyFits(n, 0); }
    else if n < 256 { FamilyFits(n, 1); }
    else if n < 512 { FamilyFits(n, 2); }
    else if n < 1024 { FamilyFits(n, 3); }
    else if n < 2048 { FamilyFits(n, 4); }
    else if n < 4096 { FamilyFits(n, 5); }
    else if n < 8192 { FamilyFits(n, 6); }
    else { FamilyFits(n, 7); }
  }

  /** The classes grow, so that is the only class with this property. */
  lemma ClassesGrow(i: nat)
    requires i + 1 < NZONES
    ensures 8 <= ChunkSize(i) < ChunkSize(i + 1) <= MAX_SIZE && ChunkSize(i) % 8 == 0
  {
    hide ChunkSize, Unit;
    Units();
    var j := if i < 15 then 0 else (i + 1) / 8 - 1;
    Family(j, i + 1 - 8 * j);
    Family(j, i + 2 - 8 * j);
    assert ChunkSize(i) == Unit(j) * (i + 1 - 8 * j);
    assert ChunkSize(i + 1) == ChunkSize(i) + Unit(j);
    UnitIs(j);
  }

  lemma UnitIs(j: nat)
    requires j < 8
    ensures Unit(j) % 8 == 0 && forall q :: 0 <= q <= 16 ==> (Unit(j) * q) % 8 == 0 && Unit(j) * q <= MAX_SIZE
  {
    Units();
    var u := Unit(j);
    assert u % 8 == 0 && u <= 1024;
    forall q | 0 <= q <= 16 ensures (u * q) % 8 == 0 && u * q <= MAX_SIZE { UnitTimes(u, q); }
  }

  lemma UnitTimes(u: nat, q: nat)
    requires u % 8 == 0 && u <= 1024 && q <= 16
    ensures (u * q) % 8 == 0 && u * q <= MAX_SIZE
  {
    assert u * q == 8 * (u / 8 * q);
    if u < 1024 && q > 0 { MulLess(u, 1024, q); }
  }

  lemma {:induction false} ClassesOrdered(i: nat, j: nat)
    requires i < j < NZONES
    ensures ChunkSize(i) < ChunkSize(j)
    decreases j
  {
    ClassesGrow(j - 1);
    if i < j - 1 { ClassesOrdered(i, j - 1); }
  }

  lemma ClassUnique(n: int, i: nat, j: nat)
    requires i < NZONES && j < NZONES && n <= ChunkSize(i) && n <= ChunkSize(j)
    requires (i > 0 ==> ChunkSize(i - 1) < n) && (j > 0 ==> ChunkSize(j - 1) < n)
    ensures i == j
  {
    hide ChunkSize;
    if i < j { if i < j - 1 { ClassesOrdered(i, j - 1); } assert false; }
    if j < i { if j < i - 1 { ClassesOrdered(j, i - 1); } assert false; }
  }

  /** Rounding twice changes nothing, as rt_realloc relies on. */
  lemma ZoneIndexTwice(n: nat)
    requires 0 < n < MAX_SIZE && ZoneIndex(n).1 < MAX_SIZE
    ensures ZoneIndex(ZoneIndex(n).1) == ZoneIndex(n)
  {
    var (i, c) := ZoneIndex(n);
    ZoneIndexFits(n);
    ZoneIndexFits(c);
    var (j, d) := ZoneIndex(c);
    hide ChunkSize, ZoneIndex;
    ClassUnique(c, i, j);
  }

  /** Less than an eighth is lost to rounding, beyond the smallest requests. */
  lemma RoundingLoss(n: nat)
    requires 0 < n < MAX_SIZE
    ensures var c := ZoneIndex(n).1; if n < 128 then c - n < 8 else 8 * (c - n) < n
  {
  }

  // ----- zones

  predicate IsPow2(n: nat)
    decreases n
  {
    n == 1 || (n > 1 && n % 2 == 0 && IsPow2(n / 2))
  }

  /** Where the chunks begin in a zone. */
  function Offset(chunk: nat): int
    requires chunk > 0
  {
    if IsPow2(chunk) then RoundTo(HEADER, chunk) else RoundTo(HEADER, 8)
  }

  function Chunks(zoneBytes: nat, chunk: nat): int
    requires chunk > 0
  {
    (zoneBytes - Offset(chunk)) / chunk
  }

  /** The header and the chunks fit into the zone, which holds at least three of them. */
  lemma ZoneHolds(zoneBytes: nat, chunk: nat)
    requires 8 <= chunk && 4 * chunk <= zoneBytes && zoneBytes >= 1024
    ensures HEADER <= Offset(chunk) && Offset(chunk) + Chunks(zoneBytes, chunk) * chunk <= zoneBytes
    ensures Chunks(zoneBytes, chunk) >= 3
  {
    var off, n := Offset(chunk), Chunks(zoneBytes, chunk);
    SmallOffset(zoneBytes, chunk);
    DivBounds(zoneBytes - off, chunk);
    if n < 3 { MulLess(n + 1, 3, chunk); }
  }

  lemma SmallOffset(zoneBytes: nat, chunk: nat)
    requires 8 <= chunk && 4 * chunk <= zoneBytes && zoneBytes >= 1024
    ensures HEADER <= Offset(chunk) && Offset(chunk) + 3 * chunk <= zoneBytes
  {
    hide IsPow2;
    if chunk > HEADER { SmallMod(HEADER, chunk); }
  }

  lemma SmallMod(a: nat, b: nat)
    requires a < b
    ensures a % b == a
  {
  }

  lemma DivBounds(a: nat, b: nat)
    requires b > 0
    ensures a / b * b <= a < (a / b + 1) * b
  {
  }

  lemma MulLess(a: nat, b: nat, c: nat)
    requires a <= b
    ensures a * c <= b * c
  {
  }
}
