/** Address prefixes in CIDR notation (section 3.1 of RFC 4632, section 2.3 of RFC 4291) and when two
    of them share an address. */
module Prefixes {
  import opened Powers

  datatype Family = V4 | V6

  /** The number of bits of an address. */
  function Width(family: Family): nat {
    match family
    case V4 => 32
    case V6 => 128
  }

  function Quotient(a: nat, d: nat): nat
    requires d > 0
  {
    a / d
  }

  /** A parsed prefix keeps its host bits; a failed parse leaves the invalid zero value. */
  datatype Prefix = NoPrefix | Prefix(family: Family, address: nat, bits: nat) {
    ghost predicate Valid() {
      this.Prefix? ==> bits <= Width(family) && address < Pow(2, Width(family))
    }

    /** The leading `n` bits of the address. */
    function Leading(n: nat): nat
      requires this.Prefix? && n <= Width(family)
    {
      Quotient(address, Pow(2, Width(family) - n))
    }

    /** netip.Prefix.Overlaps: one family, equal up to the shorter length. */
    predicate Overlaps(o: Prefix)
      requires Valid() && o.Valid()
    {
      if this == NoPrefix || o == NoPrefix then false
      else if this == o then true
      else if family != o.family then false
      else
        var minBits := if bits < o.bits then bits else o.bits;
        if minBits == 0 then true else Leading(minBits) == o.Leading(minBits)
    }

    /** The addresses of a prefix: those of its family that agree with it on its leading bits. */
    ghost predicate Contains(family: Family, address: nat) {
      && this.Prefix?
      && this.family == family
      && bits <= Width(family)
      && address < Pow(2, Width(family))
      && Quotient(address, Pow(2, Width(family) - bits)) == Quotient(this.address, Pow(2, Width(family) - bits))
    }
  }

  ghost predicate ShareAddress(p: Prefix, q: Prefix) {
    exists family, address :: p.Contains(family, address) && q.Contains(family, address)
  }

  lemma Distribute(x: int, y: int, d: int)
    ensures (x - y) * d == x * d - y * d
  {
  }

  lemma AtLeastOne(k: nat, d: nat)
    requires k >= 1
    ensures k * d >= d
  {
  }

  lemma QuotientIsUnique(d: nat, q: nat, r: nat, q': nat, r': nat)
    requires q * d + r == q' * d + r' && r < d && r' < d
    ensures q == q'
  {
    if q < q' {
      Distribute(q', q, d);
      AtLeastOne(q' - q, d);
    } else if q' < q {
      Distribute(q, q', d);
      AtLeastOne(q - q', d);
    }
  }

  lemma DivideTwice(a: nat, m: nat, n: nat)
    requires m > 0 && n > 0
    ensures m * n > 0 && Quotient(Quotient(a, m), n) == Quotient(a, m * n)
  {
    var q, r := a / m, a % m;
    var s, t := q / n, q % n;
    Regroup(a, m, n, q, r, s, t);
    var q', r' := a / (m * n), a % (m * n);
    assert a == q' * (m * n) + r';
    QuotientIsUnique(m * n, s, t * m + r, q', r');
  }

  lemma Regroup(a: nat, m: nat, n: nat, q: nat, r: nat, s: nat, t: nat)
    requires a == q * m + r && q == s * n + t && r < m && t < n
    ensures m * n > 0 && a == s * (m * n) + (t * m + r) && t * m + r < m * n
  {
    assert q * m == s * (m * n) + t * m;
    Distribute(n, t, m);
    AtLeastOne(n - t, m);
  }

  /** Addresses that agree on their leading bits agree on fewer leading bits. */
  lemma FewerLeadingBits(a: nat, b: nat, width: nat, more: nat, fewer: nat)
    requires fewer <= more <= width
    requires Quotient(a, Pow(2, width - more)) == Quotient(b, Pow(2, width - more))
    ensures Quotient(a, Pow(2, width - fewer)) == Quotient(b, Pow(2, width - fewer))
  {
    var m, n := width - more, more - fewer;
    PowSum(2, m, n);
    DivideTwice(a, Pow(2, m), Pow(2, n));
    DivideTwice(b, Pow(2, m), Pow(2, n));
  }

  lemma NoLeadingBits(a: nat, width: nat)
    requires a < Pow(2, width)
    ensures Quotient(a, Pow(2, width - 0)) == 0
  {
    hide Pow;
    var d := Pow(2, width);
    QuotientIsUnique(d, 0, a, a / d, a % d);
  }

  lemma OverlapsIffShorterAgrees(p: Prefix, q: Prefix)
    requires p.Prefix? && q.Prefix? && p.Valid() && q.Valid() && p.family == q.family && p.bits <= q.bits
    ensures p.Overlaps(q) <==> p.Leading(p.bits) == q.Leading(p.bits)
    ensures q.Overlaps(p) <==> p.Overlaps(q)
  {
    hide Pow, Width, Quotient;
    if p.bits == 0 {
      NoLeadingBits(p.address, Width(p.family));
      NoLeadingBits(q.address, Width(q.family));
    }
  }

  lemma SharesIffShorterAgrees(p: Prefix, q: Prefix)
    requires p.Prefix? && q.Prefix? && p.Valid() && q.Valid() && p.family == q.family && p.bits <= q.bits
    ensures ShareAddress(p, q) <==> p.Leading(p.bits) == q.Leading(p.bits)
  {
    hide Pow, Width, Quotient;
    var family, width := p.family, Width(p.family);
    if p.Leading(p.bits) == q.Leading(p.bits) {
      assert p.Contains(family, q.address) && q.Contains(family, q.address);
    }
    if f, address :| p.Contains(f, address) && q.Contains(f, address) {
      FewerLeadingBits(address, q.address, width, q.bits, p.bits);
    }
  }

  /** Overlapping means having a common address. */
  lemma OverlapsIffShareAddress(p: Prefix, q: Prefix)
    requires p.Valid() && q.Valid()
    ensures p.Overlaps(q) <==> ShareAddress(p, q)
  {
    hide Pow, Width, Quotient;
    if p.Prefix? && q.Prefix? && p.family == q.family {
      if p.bits <= q.bits {
        OverlapsIffShorterAgrees(p, q);
        SharesIffShorterAgrees(p, q);
      } else {
        OverlapsIffShorterAgrees(q, p);
        SharesIffShorterAgrees(q, p);
        ShareIsSymmetric(p, q);
      }
    }
  }

  lemma ShareIsSymmetric(p: Prefix, q: Prefix)
    ensures ShareAddress(p, q) <==> ShareAddress(q, p)
  {
  }

  lemma BitsBound(address: nat, width: nat)
    requires address < Pow(2, width)
    ensures Quotient(address, Pow(2, width - 0)) == 0
    ensures Quotient(address, Pow(2, width - width)) == address
  {
    NoLeadingBits(address, width);
    assert Pow(2, 0) == 1;
  }

  /** The prefix without bits holds every address of its family, 32 or 128 bits wide; the longest prefix of
      the family holds one address. */
  lemma ShortestAndLongest(address: nat, other: nat)
    ensures Prefix(V4, 0, 0).Contains(V4, address) <==> address < Pow(2, 32)
    ensures Prefix(V6, 0, 0).Contains(V6, address) <==> address < Pow(2, 128)
    ensures other < Pow(2, 32) ==> (Prefix(V4, other, 32).Contains(V4, address) <==> address == other)
    ensures other < Pow(2, 128) ==> (Prefix(V6, other, 128).Contains(V6, address) <==> address == other)
    ensures !Prefix(V4, other, 0).Contains(V6, address) && !Prefix(V6, other, 0).Contains(V4, address)
  {
    assert Pow(2, 0) == 1;
    hide Pow, Quotient;
    BoundsOf(V4, address, other);
    BoundsOf(V6, address, other);
  }

  lemma BoundsOf(family: Family, address: nat, other: nat)
    ensures var w := Width(family);
      && (Prefix(family, 0, 0).Contains(family, address) <==> address < Pow(2, w))
      && (other < Pow(2, w) ==> (Prefix(family, other, w).Contains(family, address) <==> address == other))
  {
    var w := Width(family);
    if address < Pow(2, w) {
      BitsBound(address, w);
    }
    if other < Pow(2, w) {
      BitsBound(other, w);
    }
    BitsBound(0, w);
    hide Pow, Quotient, Width;
  }
}
