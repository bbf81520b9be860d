/**
 The memory figures of sysinfo: counted in units of mem_unit bytes, rewritten in bytes when
 all of ram and swap fits a word, and scaled down again for 32-bit callers.
 */
module KernelSysinfo {

  /** The eight memory figures and their unit. */
  datatype Info = Info(figures: seq<nat>, memUnit: nat)

  const TotalRam := 0
  const TotalSwap := 4

  /** The figures are words below w, mem_unit is an unsigned int. w is 2^32 or 2^64. */
  predicate Words(i: Info, w: nat) {
    |i.figures| == 8 && i.memUnit < Word32 && w > 0 && forall k | 0 <= k < 8 :: i.figures[k] < w
  }

  function Pow2(n: nat): (r: nat)
    ensures r > 0
  {
    if n == 0 then 1 else 2 * Pow2(n - 1)
  }

  /** How often the loop halves mem_unit until it is at most 1. */
  function Log2(u: nat): nat { if u <= 1 then 0 else 1 + Log2(u / 2) }

  function Total(i: Info): nat
    requires |i.figures| == 8
  {
    i.figures[TotalRam] + i.figures[TotalSwap]
  }

  /** t shifted left by n bits, without losing any. */
  function Shl(t: nat, n: nat): (r: nat)
    ensures r >= t
    decreases n
  {
    if n == 0 then t else Shl(2 * t, n - 1)
  }

  lemma {:induction false} ShlIsProduct(t: nat, n: nat)
    ensures Shl(t, n) == t * Pow2(n)
    decreases n
  {
    if n > 0 {
      ShlIsProduct(2 * t, n - 1);
      Doubled(t, n);
    }
  }

  lemma ShlTwice(t: nat, n: nat)
    requires n > 0
    ensures Shl(t, n) == 2 * Shl(t, n - 1)
  {
    ShlIsProduct(t, n);
    ShlIsProduct(t, n - 1);
    Doubled(t, n);
  }

  lemma Doubled(t: nat, n: nat)
    requires n > 0
    ensures (2 * t) * Pow2(n - 1) == t * Pow2(n) == (t * Pow2(n - 1)) * 2
  {
  }

  /** Ram and swap together, scaled, fit a word. */
  predicate Fits(i: Info, w: nat)
    requires |i.figures| == 8
  {
    Shl(Total(i), Log2(i.memUnit)) < w
  }

  /** The wraparound tests catch exactly the totals that do not fit. */
  method Scaling(info: Info, w: nat) returns (fits: bool, bitcount: nat)
    requires Words(info, w)
    ensures fits <==> Fits(info, w)
    ensures fits ==> bitcount == Log2(info.memUnit)
  {
    bitcount := 0;
    var ram, swap := info.figures[TotalRam], info.figures[TotalSwap];
    var total: nat := (ram + swap) % w;
    SumWraps(ram, swap, w);
    if total < ram || total < swap {
      return false, 0;
    }
    var unit := info.memUnit;
    while unit > 1
      invariant 0 <= total < w && bitcount + Log2(unit) == Log2(info.memUnit)
      invariant Shl(total, Log2(unit)) == Shl(Total(info), Log2(info.memUnit))
    {
      bitcount := bitcount + 1;
      unit := unit / 2;
      var sav := total;
      total := (total * 2) % w;
      DoubleWraps(sav, w);
      if total < sav {
        return false, 0;
      }
    }
    fits := true;
  }

  lemma SumWraps(a: nat, b: nat, w: nat)
    requires a < w && b < w
    ensures (a + b) % w == if a + b < w then a + b else a + b - w
    ensures (a + b) % w < a || (a + b) % w < b <==> a + b >= w
  {
    if a + b >= w {
      assert (a + b - w) % w == a + b - w;
      ModLess(a + b, w);
    }
  }

  lemma DoubleWraps(a: nat, w: nat)
    requires a < w
    ensures (a * 2) % w == (if a * 2 < w then a * 2 else a * 2 - w)
    ensures (a * 2) % w < a <==> a * 2 >= w
  {
    SumWraps(a, a, w);
    assert a * 2 == a + a;
  }

  lemma ModLess(x: nat, w: nat)
    requires 0 < w <= x < 2 * w
    ensures x % w == x - w
  {
    assert x / w == 1;
  }

  method DoSysinfo(info: Info, w: nat) returns (r: Info)
    requires Words(info, w)
    ensures |r.figures| == 8
    ensures !Fits(info, w) ==> r == info
    ensures Fits(info, w) ==> r.memUnit == 1 && forall k | 0 <= k < 8 ::
      r.figures[k] == Shl(info.figures[k], Log2(info.memUnit)) % w
  {
    var fits, bitcount := Scaling(info, w);
    r := info;
    if fits {
      r := Info(Shifted(info.figures, bitcount, w), 1);
    }
  }

  /** Every figure shifted left, in words below w. */
  function Shifted(figures: seq<nat>, bits: nat, w: nat): (r: seq<nat>)
    requires w > 0
    ensures |r| == |figures| && forall k | 0 <= k < |r| :: r[k] == Shl(figures[k], bits) % w
  {
    seq(|figures|, k requires 0 <= k < |figures| => Shl(figures[k], bits) % w)
  }

  /** A unit is a power of two exactly when halving and doubling give it back. */
  ghost predicate PowerOfTwo(u: nat) { exists n :: Pow2(n) == u }

  lemma {:induction false} Log2OfPow2(n: nat)
    ensures Log2(Pow2(n)) == n
  {
    if n > 0 {
      Log2OfPow2(n - 1);
      assert Pow2(n) / 2 == Pow2(n - 1);
    }
  }

  lemma {:induction false} Log2Below(u: nat)
    requires u > 0
    ensures Pow2(Log2(u)) <= u && (Pow2(Log2(u)) == u <==> PowerOfTwo(u))
  {
    if u > 1 {
      Log2Below(u / 2);
    } else {
      assert Pow2(0) == 1;
    }
    if n :| Pow2(n) == u {
      Log2OfPow2(n);
    }
  }

  /** A figure no larger than ram plus swap keeps its number of bytes exactly when the unit is a power of two or the
      figure is 0. */
  lemma BytesKeptIff(info: Info, w: nat, k: nat)
    requires Words(info, w) && info.memUnit > 0 && Fits(info, w) && k < 8 && info.figures[k] <= Total(info)
    ensures var scaled := Shl(info.figures[k], Log2(info.memUnit)) % w;
      scaled == info.figures[k] * info.memUnit <==> PowerOfTwo(info.memUnit) || info.figures[k] == 0
  {
    var f, n := info.figures[k], Log2(info.memUnit);
    Log2Below(info.memUnit);
    ShlIsProduct(f, n);
    ShlIsProduct(Total(info), n);
    Times(f, Total(info), Pow2(n));
    SmallMod(Shl(f, n), w);
    SmallerFactor(f, Pow2(n), info.memUnit);
  }

  /** For a unit that is a power of two: ram and swap together, in bytes, fit a word; and then every figure that is no
      larger is kept. */
  lemma FitsMeans(info: Info, w: nat)
    requires Words(info, w) && PowerOfTwo(info.memUnit)
    ensures Fits(info, w) <==> (info.figures[0] + info.figures[4]) * info.memUnit < w
    ensures Fits(info, w) ==> forall k | 0 <= k < 8 && info.figures[k] <= info.figures[0] + info.figures[4] ::
      Shl(info.figures[k], Log2(info.memUnit)) % w == info.figures[k] * info.memUnit
  {
    Log2Below(info.memUnit);
    ShlIsProduct(Total(info), Log2(info.memUnit));
    if Fits(info, w) {
      forall k | 0 <= k < 8 && info.figures[k] <= Total(info)
        ensures Shl(info.figures[k], Log2(info.memUnit)) % w == info.figures[k] * info.memUnit
      {
        BytesKeptIff(info, w, k);
      }
    }
  }

  lemma SmallMod(x: nat, w: nat)
    requires x < w
    ensures x % w == x
  {
  }

  lemma SmallerFactor(f: nat, p: nat, q: nat)
    requires p <= q
    ensures f * p == f * q <==> p == q || f == 0
  {
    if p < q && f > 0 {
      assert f * q == f * p + f * (q - p) && f * (q - p) > 0;
    }
  }

  lemma Times(a: nat, b: nat, p: nat)
    requires a <= b
    ensures a * p <= b * p
  {
  }

  // ----- The 32-bit form -----

  const PageSize := 4096
  const Word32 := 0x1_0000_0000

  /** Ram or swap needs more than 32 bits. */
  predicate Wide(s: Info)
    requires |s.figures| == 8
  {
    s.figures[TotalRam] >= Word32 || s.figures[TotalSwap] >= Word32
  }

  /** The unit doubled until it is a page or more. */
  function Grown(unit: nat): (r: nat)
    requires unit > 0
    ensures r >= PageSize && (unit < PageSize ==> r < 2 * PageSize)
    decreases PageSize - unit
  {
    if unit < PageSize then Grown(2 * unit) else unit
  }

  /** The loop, and the stores into the fields of the caller's structure, which are 32 bits wide. */
  method CompatSysinfo(s: Info) returns (r: Info, bits: nat)
    requires |s.figures| == 8 && 0 < s.memUnit < Word32
    ensures |r.figures| == 8 && forall k | 0 <= k < 8 :: r.figures[k] == Shr(s.figures[k], bits) % Word32
    ensures r.memUnit == (if Wide(s) then Grown(s.memUnit) else s.memUnit) == Shl(s.memUnit, bits)
  {
    bits := 0;
    var unit := s.memUnit;
    if s.figures[TotalRam] / Word32 != 0 || s.figures[TotalSwap] / Word32 != 0 {
      while unit < PageSize
        invariant 0 < unit == Shl(s.memUnit, bits) && unit < Word32 && Grown(unit) == Grown(s.memUnit)
        decreases PageSize - unit
      {
        unit := (unit * 2) % Word32;
        bits := bits + 1;
        assert unit == Shl(s.memUnit, bits) by { ShlTwice(s.memUnit, bits); }
      }
    }
    r := Info(seq(8, k requires 0 <= k < 8 => Shr(s.figures[k], bits) % Word32), unit);
  }

  /** f shifted right. */
  function Shr(f: nat, bits: nat): nat
    decreases bits
  {
    if bits == 0 then f else Shr(f / 2, bits - 1)
  }

  lemma {:induction false} ShrIsQuotient(f: nat, bits: nat) returns (rest: nat)
    ensures f == Shr(f, bits) * Pow2(bits) + rest && rest < Pow2(bits)
    decreases bits
  {
    rest := 0;
    if bits > 0 {
      var half := ShrIsQuotient(f / 2, bits - 1);
      rest := 2 * half + f % 2;
      Doubled(Shr(f, bits), bits);
    }
  }

  /** The figure, in its unit, is the number of bytes to within one unit. */
  predicate Near(figure: nat, unit: nat, bytes: nat) { figure * unit <= bytes < figure * unit + unit }

  /** Scaling down loses less than one new unit of each figure, and never adds any. */
  lemma LosesLessThanAUnit(f: nat, unit: nat, bits: nat)
    requires unit > 0
    ensures Near(Shr(f, bits), Shl(unit, bits), f * unit)
  {
    ShlIsProduct(unit, bits);
    var rest := ShrIsQuotient(f, bits);
    RestIsSmall(Shr(f, bits), Pow2(bits), rest, unit);
  }

  lemma RestIsSmall(q: nat, p: nat, rest: nat, unit: nat)
    requires unit > 0 && rest < p
    ensures q * (unit * p) <= (q * p + rest) * unit < q * (unit * p) + unit * p
  {
    calc { (q * p + rest) * unit; q * (unit * p) + rest * unit; }
    Times(rest + 1, p, unit);
  }

  /** Cutting a figure that is near down to 32 bits leaves it near exactly when it had no more. */
  lemma CutIsNearIff(q: nat, unit: nat, bytes: nat)
    requires Near(q, unit, bytes)
    ensures Near(q % Word32, unit, bytes) <==> q < Word32
    ensures q < Word32 <==> bytes < Word32 * unit
  {
    if q >= Word32 {
      Times(q % Word32 + 1, q, unit);
      Times(Word32, q, unit);
    } else {
      Times(q + 1, Word32, unit);
    }
  }

  /** Growing a power of two ends at the page size, if it was not there already. */
  lemma {:induction false} GrownPower(n: nat)
    ensures Grown(Pow2(n)) == if n < 12 then PageSize else Pow2(n)
    decreases 12 - n
  {
    PowerGrows(n, 12);
    if n < 12 {
      GrownPower(n + 1);
    }
  }

  lemma {:induction false} PowerGrows(n: nat, m: nat)
    ensures m <= n ==> Pow2(m) <= Pow2(n)
    ensures n < m ==> 2 * Pow2(n) <= Pow2(m)
    ensures Pow2(12) == PageSize
  {
    assert Pow2(4) == 16 && Pow2(8) == 256 && Pow2(12) == 4096;
    if m < n {
      PowerGrows(n - 1, m);
    } else if n + 1 < m {
      PowerGrows(n, m - 1);
    }
  }

  function Larger(a: nat, b: nat): nat { if a < b then b else a }

  lemma GrownIsLarger(u: nat)
    requires u > 0 && PowerOfTwo(u)
    ensures Grown(u) == Larger(u, PageSize)
  {
    var n :| Pow2(n) == u;
    GrownPower(n);
    PowerGrows(n, 12);
  }

  /** The unit do_sysinfo leaves. */
  function ScaledUnit(info: Info, w: nat): nat
    requires |info.figures| == 8
  {
    if Fits(info, w) then 1 else info.memUnit
  }

  /** A figure that needs more than 32 bits in the unit do_sysinfo leaves. */
  predicate NeedsMore(info: Info, w: nat, k: nat)
    requires |info.figures| == 8 && k < 8
  {
    info.figures[k] * info.memUnit >= Word32 * ScaledUnit(info, w)
  }

  /** The unit a 32-bit caller is told, read off the input. */
  function ShownUnit(info: Info, w: nat): nat
    requires |info.figures| == 8
  {
    var unit := ScaledUnit(info, w);
    if NeedsMore(info, w, TotalRam) || NeedsMore(info, w, TotalSwap) then Larger(unit, PageSize) else unit
  }

  /** do_sysinfo does not change how many bytes a figure stands for. */
  lemma SameBytes(info: Info, w: nat, s: Info, k: nat)
    requires Words(info, w) && info.memUnit > 0 && PowerOfTwo(info.memUnit) && k < 8 && info.figures[k] <= Total(info)
    requires |s.figures| == 8 && s.memUnit == ScaledUnit(info, w) && (!Fits(info, w) ==> s == info)
    requires Fits(info, w) ==> s.figures[k] == Shl(info.figures[k], Log2(info.memUnit)) % w
    ensures s.figures[k] * s.memUnit == info.figures[k] * info.memUnit
    ensures s.figures[k] >= Word32 <==> NeedsMore(info, w, k)
  {
    if Fits(info, w) {
      BytesKeptIff(info, w, k);
    } else {
      LessByFactor(info.figures[k], Word32, info.memUnit);
    }
  }

  lemma LessByFactor(a: nat, b: nat, u: nat)
    requires u > 0
    ensures a >= b <==> a * u >= b * u
  {
    if a < b {
      Times(a + 1, b, u);
    } else {
      Times(b, a, u);
    }
  }

  /** s is what do_sysinfo makes of info. */
  ghost predicate Rewritten(info: Info, w: nat, s: Info)
    requires Words(info, w)
  {
    && |s.figures| == 8 && s.memUnit == ScaledUnit(info, w) && (!Fits(info, w) ==> s == info)
    && (Fits(info, w) ==> forall k | 0 <= k < 8 :: s.figures[k] == Shl(info.figures[k], Log2(info.memUnit)) % w)
  }

  lemma ShownNearIff(info: Info, w: nat, s: Info, bits: nat, k: nat)
    requires Words(info, w) && info.memUnit > 0 && PowerOfTwo(info.memUnit) && k < 8 && info.figures[k] <= Total(info)
    requires Rewritten(info, w, s)
    ensures var bytes, unit := info.figures[k] * info.memUnit, Shl(s.memUnit, bits);
      Near(Shr(s.figures[k], bits) % Word32, unit, bytes) <==> bytes < Word32 * unit
  {
    SameBytes(info, w, s, k);
    ScaledAndCut(s.figures[k], s.memUnit, bits, info.figures[k] * info.memUnit);
  }

  lemma ScaledAndCut(f: nat, unit: nat, bits: nat, bytes: nat)
    requires unit > 0 && bytes == f * unit
    ensures Near(Shr(f, bits) % Word32, Shl(unit, bits), bytes) <==> bytes < Word32 * Shl(unit, bits)
  {
    LosesLessThanAUnit(f, unit, bits);
    var q, u := Shr(f, bits), Shl(unit, bits);
    CutIsNearIff(q, u, bytes);
  }

  lemma ShownUnitIs(info: Info, w: nat, s: Info)
    requires Words(info, w) && info.memUnit > 0 && PowerOfTwo(info.memUnit) && Rewritten(info, w, s)
    ensures ShownUnit(info, w) == if Wide(s) then Grown(s.memUnit) else s.memUnit
  {
    SameBytes(info, w, s, TotalRam);
    SameBytes(info, w, s, TotalSwap);
    assert PowerOfTwo(s.memUnit) by { assert Pow2(0) == 1; }
    GrownIsLarger(s.memUnit);
  }

  /** What a 32-bit caller is shown, for a unit that is a power of two: the unit is as said, and a figure bounded by ram
      plus swap stands for its bytes to within one such unit exactly when they number less than 2^32 units. */
  method ShownTo32Bit(info: Info, w: nat) returns (r: Info)
    requires Words(info, w) && info.memUnit > 0 && PowerOfTwo(info.memUnit)
    ensures r.memUnit == ShownUnit(info, w)
    ensures |r.figures| == 8 && forall k | 0 <= k < 8 && info.figures[k] <= Total(info) ::
      Near(r.figures[k], r.memUnit, info.figures[k] * info.memUnit) <==>
        info.figures[k] * info.memUnit < Word32 * r.memUnit
  {
    var s := DoSysinfo(info, w);
    var bits;
    r, bits := CompatSysinfo(s);
    ShownUnitIs(info, w, s);
    forall k | 0 <= k < 8 && info.figures[k] <= Total(info)
      ensures Near(r.figures[k], r.memUnit, info.figures[k] * info.memUnit) <==>
        info.figures[k] * info.memUnit < Word32 * r.memUnit
    {
      ShownNearIff(info, w, s, bits, k);
    }
  }

  /** 2^44 bytes of ram, counted by a 64-bit kernel in pages of 2^12, are shown as none. */
  method SixteenTerabytes() returns (r: Info)
    ensures |r.figures| == 8 && r.figures[TotalRam] == 0 && r.memUnit == PageSize
  {
    var info := Info([0x1_0000_0000, 0, 0, 0, 0, 0, 0, 0], PageSize);
    RamInBytes(info.figures[TotalRam], info.memUnit);
    var s := DoSysinfo(info, 0x1_0000_0000_0000_0000);
    var bits;
    r, bits := CompatSysinfo(s);
    RamInPages(bits);
  }

  lemma RamInBytes(pages: nat, unit: nat)
    requires pages == Word32 && unit == PageSize
    ensures Shl(pages, Log2(unit)) == 0x1000_0000_0000
  {
    assert Pow2(12) == PageSize;
    Log2OfPow2(12);
    ShlIsProduct(pages, 12);
  }

  /** The unit has grown from 1 to a page, so the figure has shrunk by as much, to 2^32. */
  lemma RamInPages(bits: nat)
    requires Grown(1) == Shl(1, bits)
    ensures Grown(1) == PageSize && Shr(0x1000_0000_0000, bits) == Word32
  {
    GrownFromOne();
    ShlIsProduct(1, bits);
    ghost var rest := ShrIsQuotient(0x1000_0000_0000, bits);
    PagesOfRam(Shr(0x1000_0000_0000, bits), Pow2(bits), rest);
  }

  lemma GrownFromOne()
    ensures Grown(1) == PageSize
  {
    assert Pow2(0) == 1;
    GrownPower(0);
  }

  lemma PagesOfRam(q: nat, p: nat, rest: nat)
    requires p == 4096 && rest < p && 0x1000_0000_0000 == q * p + rest
    ensures q == Word32
  {
  }
}
