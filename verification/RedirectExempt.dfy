/**
 Which packets the redirect mode leaves alone, said of addresses and interface names: nothing here
 speaks of rules, patterns or masks until the lemmas that connect them.
 */
module RedirectExempt {
  import opened NatTable
  import opened RedirectScript

  // -------------------------------------------------------------------- interfaces

  /** A `*` inside an entry is written as a plain `+`. */
  function Sign(c: char): char { if c == '*' then '+' else c }

  predicate Spells(entry: string, name: string)
  {
    |entry| <= |name| && forall i | 0 <= i < |entry| :: name[i] == Sign(entry[i])
  }

  /** An entry that ends in `*` or `+` stands for all names with what is before it, any other for one name. */
  predicate Covers(entry: string, name: string)
  {
    var n := |entry| - 1;
    if n >= 0 && entry[n] in ['*', '+'] then Spells(entry[..n], name) else Spells(entry, name) && |name| == |entry|
  }

  lemma {:induction false} PatternCovers(entry: string, name: string)
    ensures IfaceMatches(Pattern(entry), name) <==> Covers(entry, name)
  {
    var n, pattern := |entry| - 1, Pattern(entry);
    if n >= 0 && entry[n] in ['*', '+'] {
      assert pattern[n] == '+' && |pattern[..n]| == n;
      assert forall i | 0 <= i < n :: pattern[..n][i] == Sign(entry[..n][i]);
      PrefixIs(pattern[..n], name);
    } else {
      assert n >= 0 ==> pattern[n] == entry[n] != '+';
      assert forall i | 0 <= i < |entry| :: pattern[i] == Sign(entry[i]);
    }
  }

  lemma {:induction false} PrefixIs(a: string, b: string)
    ensures a <= b <==> |a| <= |b| && forall i | 0 <= i < |a| :: b[i] == a[i]
  {}

  /** The usual entries: a name with a star covers what begins with it, a plain name covers itself. */
  lemma {:induction false} UsualEntries(base: string, name: string)
    requires '*' !in base
    ensures Covers(base + "*", name) <==> base <= name
    ensures base == "" || base[|base| - 1] != '+' ==> (Covers(base, name) <==> name == base)
  {
    assert forall i | 0 <= i < |base| :: base[i] in base && Sign(base[i]) == base[i];
    assert (base + "*")[..|base|] == base;
    PrefixIs(base, name);
    PrefixIs(name, base);
  }

  ghost predicate OnSome(ifaces: seq<string>, p: Packet)
  {
    exists v | v in ifaces :: Covers(v, p.inIface) || Covers(v, p.outIface)
  }

  // ------------------------------------------------------------------------- marks

  /** The eighth bit of the mark is set. */
  predicate Marked(p: Packet) { p.mark % 0x100 >= 0x80 }

  lemma {:induction false} MarkedIs(p: Packet)
    ensures HasBypassMark(p) <==> Marked(p)
  {
    var q, r := p.mark / 0x100, p.mark % 0x100;
    assert p.mark == 0x80 * (2 * q + r / 0x80) + r % 0x80;
  }

  // --------------------------------------------------------------------- addresses

  ghost predicate InSome(ip: nat, cidrs: seq<Cidr>)
  {
    exists c | c in cidrs :: InCidr(ip, c)
  }

  /** Addresses that are never sent through the proxy: the ranges that are not public. */
  predicate Reserved4Address(ip: nat)
  {
    || ip == 0x0 // 0.0.0.0/32
    || 0xa00_0000 <= ip <= 0xaff_ffff // 10.0.0.0/8
    || 0x6440_0000 <= ip <= 0x647f_ffff // 100.64.0.0/10
    || 0x7f00_0000 <= ip <= 0x7fff_ffff // 127.0.0.0/8
    || 0xa9fe_0000 <= ip <= 0xa9fe_ffff // 169.254.0.0/16
    || 0xac10_0000 <= ip <= 0xac1f_ffff // 172.16.0.0/12
    || 0xc000_0000 <= ip <= 0xc000_00ff // 192.0.0.0/24
    || 0xc000_0200 <= ip <= 0xc000_02ff // 192.0.2.0/24
    || 0xc058_6300 <= ip <= 0xc058_63ff // 192.88.99.0/24
    || 0xc0a8_0000 <= ip <= 0xc0a8_ffff // 192.168.0.0/16
    || 0xc612_0000 <= ip <= 0xc613_ffff // 198.18.0.0/15
    || 0xc633_6400 <= ip <= 0xc633_64ff // 198.51.100.0/24
    || 0xcb00_7100 <= ip <= 0xcb00_71ff // 203.0.113.0/24
    || 0xe000_0000 <= ip <= 0xefff_ffff // 224.0.0.0/4
    || 0xf000_0000 <= ip <= 0xffff_ffff // 240.0.0.0/4
  }

  predicate Reserved6Address(ip: nat)
  {
    || ip == 0x0 // ::/128
    || ip == 0x1 // ::1/128
    || 0x64_ff9b_0000_0000_0000_0000_0000_0000 <= ip <= 0x64_ff9b_0000_0000_0000_0000_ffff_ffff // 64:ff9b::/96
    || 0x100_0000_0000_0000_0000_0000_0000_0000 <= ip <= 0x100_0000_0000_0000_ffff_ffff_ffff_ffff // 100::/64
    || 0x2001_0000_0000_0000_0000_0000_0000_0000 <= ip <= 0x2001_0000_ffff_ffff_ffff_ffff_ffff_ffff // 2001::/32
    || 0x2001_0020_0000_0000_0000_0000_0000_0000 <= ip <= 0x2001_002f_ffff_ffff_ffff_ffff_ffff_ffff // 2001:20::/28
    || 0x2001_0db8_0000_0000_0000_0000_0000_0000 <= ip <= 0x2001_0db8_ffff_ffff_ffff_ffff_ffff_ffff // 2001:db8::/32
    || 0x2002_0000_0000_0000_0000_0000_0000_0000 <= ip <= 0x2002_ffff_ffff_ffff_ffff_ffff_ffff_ffff // 2002::/16
    || 0xfc00_0000_0000_0000_0000_0000_0000_0000 <= ip <= 0xfdff_ffff_ffff_ffff_ffff_ffff_ffff_ffff // fc00::/7
    || 0xfe80_0000_0000_0000_0000_0000_0000_0000 <= ip <= 0xfebf_ffff_ffff_ffff_ffff_ffff_ffff_ffff // fe80::/10
    || 0xff00_0000_0000_0000_0000_0000_0000_0000 <= ip <= 0xffff_ffff_ffff_ffff_ffff_ffff_ffff_ffff // ff00::/8
  }

  predicate ReservedAddress(f: Family, ip: nat) { if f.V4? then Reserved4Address(ip) else Reserved6Address(ip) }

  lemma {:induction false} ReservedIs(f: Family, ip: nat)
    ensures InSome(ip, Reserved(f)) <==> ReservedAddress(f, ip)
  {
    if f.V4? { Reserved4Is(ip); } else { Reserved6Is(ip); }
  }

  lemma {:induction false} Reserved4Is(ip: nat)
    ensures InSome(ip, Reserved4) <==> Reserved4Address(ip)
  {
    Reserved4To3(ip);
    Reserved4To7(ip);
    Reserved4To11(ip);
    Reserved4To14(ip);
    assert InSome(ip, Reserved4) <==>
           InCidr(ip, Reserved4[0]) || InCidr(ip, Reserved4[1]) || InCidr(ip, Reserved4[2]) ||
           InCidr(ip, Reserved4[3]) || InCidr(ip, Reserved4[4]) || InCidr(ip, Reserved4[5]) ||
           InCidr(ip, Reserved4[6]) || InCidr(ip, Reserved4[7]) || InCidr(ip, Reserved4[8]) ||
           InCidr(ip, Reserved4[9]) || InCidr(ip, Reserved4[10]) || InCidr(ip, Reserved4[11]) ||
           InCidr(ip, Reserved4[12]) || InCidr(ip, Reserved4[13]) || InCidr(ip, Reserved4[14]);
  }

  lemma {:induction false} Reserved4To3(ip: nat)
    ensures InCidr(ip, Reserved4[0]) <==> ip == 0x0
    ensures InCidr(ip, Reserved4[1]) <==> 0xa00_0000 <= ip <= 0xaff_ffff
    ensures InCidr(ip, Reserved4[2]) <==> 0x6440_0000 <= ip <= 0x647f_ffff
    ensures InCidr(ip, Reserved4[3]) <==> 0x7f00_0000 <= ip <= 0x7fff_ffff
  {
    Sizes4();
    RangeIs(ip, Reserved4[0], 0, 0, 0x0);
    RangeIs(ip, Reserved4[1], 1, 8, 0xa);
    RangeIs(ip, Reserved4[2], 1, 6, 0x191);
    RangeIs(ip, Reserved4[3], 1, 8, 0x7f);
  }

  lemma {:induction false} Reserved4To7(ip: nat)
    ensures InCidr(ip, Reserved4[4]) <==> 0xa9fe_0000 <= ip <= 0xa9fe_ffff
    ensures InCidr(ip, Reserved4[5]) <==> 0xac10_0000 <= ip <= 0xac1f_ffff
    ensures InCidr(ip, Reserved4[6]) <==> 0xc000_0000 <= ip <= 0xc000_00ff
    ensures InCidr(ip, Reserved4[7]) <==> 0xc000_0200 <= ip <= 0xc000_02ff
  {
    Sizes4();
    RangeIs(ip, Reserved4[4], 1, 0, 0xa9fe);
    RangeIs(ip, Reserved4[5], 1, 4, 0xac1);
    RangeIs(ip, Reserved4[6], 0, 8, 0xc0_0000);
    RangeIs(ip, Reserved4[7], 0, 8, 0xc0_0002);
  }

  lemma {:induction false} Reserved4To11(ip: nat)
    ensures InCidr(ip, Reserved4[8]) <==> 0xc058_6300 <= ip <= 0xc058_63ff
    ensures InCidr(ip, Reserved4[9]) <==> 0xc0a8_0000 <= ip <= 0xc0a8_ffff
    ensures InCidr(ip, Reserved4[10]) <==> 0xc612_0000 <= ip <= 0xc613_ffff
    ensures InCidr(ip, Reserved4[11]) <==> 0xc633_6400 <= ip <= 0xc633_64ff
  {
    Sizes4();
    RangeIs(ip, Reserved4[8], 0, 8, 0xc0_5863);
    RangeIs(ip, Reserved4[9], 1, 0, 0xc0a8);
    RangeIs(ip, Reserved4[10], 1, 1, 0x6309);
    RangeIs(ip, Reserved4[11], 0, 8, 0xc6_3364);
  }

  lemma {:induction false} Reserved4To14(ip: nat)
    ensures InCidr(ip, Reserved4[12]) <==> 0xcb00_7100 <= ip <= 0xcb00_71ff
    ensures InCidr(ip, Reserved4[13]) <==> 0xe000_0000 <= ip <= 0xefff_ffff
    ensures InCidr(ip, Reserved4[14]) <==> 0xf000_0000 <= ip <= 0xffff_ffff
  {
    Sizes4();
    RangeIs(ip, Reserved4[12], 0, 8, 0xcb_0071);
    RangeIs(ip, Reserved4[13], 1, 12, 0xe);
    RangeIs(ip, Reserved4[14], 1, 12, 0xf);
  }

  lemma {:induction false} Reserved6Is(ip: nat)
    ensures InSome(ip, Reserved6) <==> Reserved6Address(ip)
  {
    Reserved6To3(ip);
    Reserved6To7(ip);
    Reserved6To10(ip);
    assert InSome(ip, Reserved6) <==>
           InCidr(ip, Reserved6[0]) || InCidr(ip, Reserved6[1]) || InCidr(ip, Reserved6[2]) ||
           InCidr(ip, Reserved6[3]) || InCidr(ip, Reserved6[4]) || InCidr(ip, Reserved6[5]) ||
           InCidr(ip, Reserved6[6]) || InCidr(ip, Reserved6[7]) || InCidr(ip, Reserved6[8]) ||
           InCidr(ip, Reserved6[9]) || InCidr(ip, Reserved6[10]);
  }

  lemma {:induction false} Reserved6To3(ip: nat)
    ensures InCidr(ip, Reserved6[0]) <==> ip == 0x0
    ensures InCidr(ip, Reserved6[1]) <==> ip == 0x1
    ensures InCidr(ip, Reserved6[2]) <==>
            0x64_ff9b_0000_0000_0000_0000_0000_0000 <= ip <= 0x64_ff9b_0000_0000_0000_0000_ffff_ffff
    ensures InCidr(ip, Reserved6[3]) <==>
            0x100_0000_0000_0000_0000_0000_0000_0000 <= ip <= 0x100_0000_0000_0000_ffff_ffff_ffff_ffff
  {
    Sizes6();
    RangeIs(ip, Reserved6[0], 0, 0, 0x0);
    RangeIs(ip, Reserved6[1], 0, 0, 0x1);
    RangeIs(ip, Reserved6[2], 2, 0, 0x64_ff9b_0000_0000_0000_0000);
    RangeIs(ip, Reserved6[3], 4, 0, 0x100_0000_0000_0000);
  }

  lemma {:induction false} Reserved6To7(ip: nat)
    ensures InCidr(ip, Reserved6[4]) <==>
            0x2001_0000_0000_0000_0000_0000_0000_0000 <= ip <= 0x2001_0000_ffff_ffff_ffff_ffff_ffff_ffff
    ensures InCidr(ip, Reserved6[5]) <==>
            0x2001_0020_0000_0000_0000_0000_0000_0000 <= ip <= 0x2001_002f_ffff_ffff_ffff_ffff_ffff_ffff
    ensures InCidr(ip, Reserved6[6]) <==>
            0x2001_0db8_0000_0000_0000_0000_0000_0000 <= ip <= 0x2001_0db8_ffff_ffff_ffff_ffff_ffff_ffff
    ensures InCidr(ip, Reserved6[7]) <==>
            0x2002_0000_0000_0000_0000_0000_0000_0000 <= ip <= 0x2002_ffff_ffff_ffff_ffff_ffff_ffff_ffff
  {
    Sizes6();
    RangeIs(ip, Reserved6[4], 6, 0, 0x2001_0000);
    RangeIs(ip, Reserved6[5], 6, 4, 0x200_1002);
    RangeIs(ip, Reserved6[6], 6, 0, 0x2001_0db8);
    RangeIs(ip, Reserved6[7], 7, 0, 0x2002);
  }

  lemma {:induction false} Reserved6To10(ip: nat)
    ensures InCidr(ip, Reserved6[8]) <==>
            0xfc00_0000_0000_0000_0000_0000_0000_0000 <= ip <= 0xfdff_ffff_ffff_ffff_ffff_ffff_ffff_ffff
    ensures InCidr(ip, Reserved6[9]) <==>
            0xfe80_0000_0000_0000_0000_0000_0000_0000 <= ip <= 0xfebf_ffff_ffff_ffff_ffff_ffff_ffff_ffff
    ensures InCidr(ip, Reserved6[10]) <==>
            0xff00_0000_0000_0000_0000_0000_0000_0000 <= ip <= 0xffff_ffff_ffff_ffff_ffff_ffff_ffff_ffff
  {
    Sizes6();
    RangeIs(ip, Reserved6[8], 7, 9, 0x7e);
    RangeIs(ip, Reserved6[9], 7, 6, 0x3fa);
    RangeIs(ip, Reserved6[10], 7, 8, 0xff);
  }

  // ------------------------------------------------------------- networks as ranges

  /** How many addresses `groups` groups of sixteen bits and `bits` more can tell apart. */
  function Size(groups: nat, bits: nat): nat
  {
    if bits > 0 then 2 * Size(groups, bits - 1) else if groups > 0 then 0x1_0000 * Size(groups - 1, 0) else 1
  }

  lemma {:induction false} Sizes4()
    ensures Size(0, 0) == 1 && Size(0, 4) == 0x10 && Size(0, 8) == 0x100
    ensures Size(1, 0) == 0x1_0000 && Size(1, 1) == 0x2_0000 && Size(1, 4) == 0x10_0000 && Size(1, 6) == 0x40_0000
    ensures Size(1, 8) == 0x100_0000 && Size(1, 12) == 0x1000_0000
  {
    More(0, 0);
    More(0, 4);
    More(1, 0);
    More(1, 4);
    More(1, 8);
    assert Size(1, 5) == 2 * Size(1, 4);
  }

  lemma {:induction false} Sizes6()
    ensures Size(0, 0) == 1 && Size(2, 0) == 0x1_0000_0000 && Size(4, 0) == 0x1_0000_0000_0000_0000
    ensures Size(6, 0) == 0x1_0000_0000_0000_0000_0000_0000 && Size(6, 4) == 0x10_0000_0000_0000_0000_0000_0000
    ensures Size(7, 0) == 0x1_0000_0000_0000_0000_0000_0000_0000
    ensures Size(7, 6) == 0x40_0000_0000_0000_0000_0000_0000_0000
    ensures Size(7, 8) == 0x100_0000_0000_0000_0000_0000_0000_0000
    ensures Size(7, 9) == 0x200_0000_0000_0000_0000_0000_0000_0000
  {
    assert Size(1, 0) == 0x1_0000 && Size(3, 0) == 0x1_0000 * Size(2, 0) && Size(5, 0) == 0x1_0000 * Size(4, 0);
    More(6, 0);
    More(7, 0);
    More(7, 4);
    assert Size(7, 5) == 2 * Size(7, 4);
  }

  lemma {:induction false} More(groups: nat, bits: nat)
    ensures Size(groups, bits + 4) == 16 * Size(groups, bits)
  {
    assert Size(groups, bits + 4) == 2 * Size(groups, bits + 3) && Size(groups, bits + 2) == 2 * Size(groups, bits + 1);
  }

  lemma {:induction false} SizeIs(groups: nat, bits: nat)
    ensures Pow2(16 * groups + bits) == Size(groups, bits)
    decreases groups, bits
  {
    if bits > 0 {
      SizeIs(groups, bits - 1);
    } else if groups > 0 {
      SizeIs(groups - 1, 0);
      Times16(16 * groups - 16);
      Times16(16 * groups - 12);
      Times16(16 * groups - 8);
      Times16(16 * groups - 4);
    }
  }

  lemma {:induction false} Times16(n: nat)
    ensures Pow2(n + 4) == 16 * Pow2(n)
  {
    assert Pow2(n + 4) == 2 * Pow2(n + 3) && Pow2(n + 2) == 2 * Pow2(n + 1);
  }

  /** A network that begins at a multiple of its size is a range. */
  lemma {:induction false} RangeIs(ip: nat, c: Cidr, groups: nat, bits: nat, q: nat)
    requires c.hostBits == 16 * groups + bits && c.network == Size(groups, bits) * q
    ensures InCidr(ip, c) <==> 0 <= ip - c.network < Size(groups, bits)
  {
    Pow2Positive(c.hostBits);
    SizeIs(groups, bits);
    Between(Size(groups, bits), q, ip);
    Between(Size(groups, bits), q, c.network);
  }

  lemma {:induction false} Between(m: nat, q: nat, x: nat)
    requires m > 0
    ensures x / m == q <==> 0 <= x - m * q < m
  {
    if 0 <= x - m * q < m { Quotient(m, q, x - m * q); }
    if x / m == q { assert x == m * (x / m) + x % m; }
  }

  lemma {:induction false} Quotient(m: nat, q: nat, r: nat)
    requires r < m
    ensures (m * q + r) / m == q
  {
    var n := m * q + r;
    BelowOne(m, n / m - q);
    assert m * (n / m - q) == r - n % m;
  }
}
