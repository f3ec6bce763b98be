/** Cloud provider ranges in buckets of their first part, against a scan over all of them. */
module CloudIpRanges {
  import opened Common

  /** The octets of an IPv4 address or the 16-bit parts of an IPv6 address. */
  type Parts = seq<nat>

  datatype Range = Range(base: Parts, bits: nat)

  type Tags = seq<string>

  datatype Entry = Entry(range: Range, tags: Tags)

  /** An address after mapped IPv4 addresses have been turned into IPv4. */
  datatype Address = V4(octets: Parts) | V6(parts: Parts)

  predicate IsV4(octets: Parts) {
    |octets| == 4 && forall i :: 0 <= i < 4 ==> octets[i] < 256
  }

  predicate IsV6(parts: Parts) {
    |parts| == 8 && forall i :: 0 <= i < 8 ==> parts[i] < 65536
  }

  predicate IsAddress(a: Address) {
    match a
    case V4(octets) => IsV4(octets)
    case V6(parts) => IsV6(parts)
  }

  /** Part by part, as many leading bits as are left. */
  predicate Matches(a: Parts, b: Parts, partSize: nat, bits: nat)
    requires |a| == |b|
  {
    if bits == 0 || a == [] then true
    else
      var shift := if bits < partSize then partSize - bits else 0;
      a[0] / Pow2(shift) == b[0] / Pow2(shift) &&
      (bits > partSize ==> Matches(a[1..], b[1..], partSize, bits - partSize))
  }

  // ---------------------------------------------------------------- matching as an interval of numbers

  /** The address as one number, the first part on top. */
  function Value(a: Parts, partSize: nat): nat {
    if a == [] then 0 else a[0] * Pow2(Below(a, partSize)) + Value(a[1..], partSize)
  }

  ghost predicate PartsFit(a: Parts, partSize: nat) {
    forall i :: 0 <= i < |a| ==> a[i] < Pow2(partSize)
  }

  lemma Doubled(a: int, b: int)
    ensures 2 * (a * b) == (2 * a) * b
  {
  }

  lemma {:induction false} Pow2Add(m: nat, n: nat)
    ensures Pow2(m + n) == Pow2(m) * Pow2(n)
  {
    if m > 0 {
      Pow2Add(m - 1, n);
      Doubled(Pow2(m - 1), Pow2(n));
    }
  }

  lemma Mixed(high: nat, low: nat, d: nat)
    requires low < d
    ensures (high * d + low) / d == high && (high * d + low) % d == low
  {
    Division(high * d + low, high, low, d);
  }

  lemma SameMixed(a: nat, b: nat, low: nat, low': nat, d: nat)
    requires low < d && low' < d
    ensures a * d + low == b * d + low' <==> a == b && low == low'
  {
    Mixed(a, low, d);
    Mixed(b, low', d);
  }

  lemma TwoDigits(high: nat, low: nat, d: nat, e: nat)
    requires low < d && high < e
    ensures high * d + low < e * d
  {
    assert (e - 1 - high) * d >= 0;
    assert (e - 1 - high) * d == e * d - d - high * d;
  }

  lemma MulAssociates(a: int, b: int, c: int)
    ensures a * (b * c) == (a * b) * c
  {
  }

  lemma QuotientOfQuotient(x: nat, d: nat, e: nat)
    requires d > 0 && e > 0
    ensures e * d > 0 && x / (e * d) == x / d / e
  {
    var q, r := x / d, x % d;
    var h, b := q / e, q % e;
    TwoDigits(b, r, d, e);
    MulAssociates(h, e, d);
    assert (h * e + b) * d == (h * e) * d + b * d;
    Division(x, h, b * d + r, e * d);
  }

  lemma QuotientBelow(v: nat, d: nat, m: nat, all: nat)
    requires d > 0 && v < all == m * d
    ensures v / d < m
  {
    assert (v / d) * d + v % d == v;
    LessThan(v / d, m, d);
  }

  lemma Regroup(high: int, m: int, d: int, low: int)
    ensures high * (m * d) + low * d == (high * m + low) * d
  {
    MulAssociates(high, m, d);
  }

  /** Dropping the digits below: what remains are the part above and the leading digits of the rest. */
  lemma DropLow(high: nat, m: nat, d: nat, v: nat, all: nat)
    requires d > 0 && v < all == m * d
    ensures v / d < m && (high * all + v) / d == high * m + v / d
  {
    QuotientBelow(v, d, m, all);
    Regroup(high, m, d, v / d);
    Division(high * all + v, high * m + v / d, v % d, d);
  }

  lemma Pow2Split(m: nat, n: nat, all: nat)
    requires all == m + n
    ensures Pow2(all) == Pow2(m) * Pow2(n)
  {
    Pow2Add(m, n);
  }

  /** The number of bits below the first part. */
  function Below(a: Parts, partSize: nat): nat {
    if |a| <= 1 then 0 else partSize + Below(a[1..], partSize)
  }

  lemma {:induction false} BelowIs(a: Parts, partSize: nat)
    requires a != []
    ensures Below(a, partSize) == partSize * (|a| - 1) && partSize * |a| == partSize + Below(a, partSize)
  {
    if |a| > 1 {
      BelowIs(a[1..], partSize);
      assert partSize * (|a| - 1) == partSize + partSize * (|a| - 2);
    }
    assert partSize * |a| == partSize + partSize * (|a| - 1);
  }

  lemma RestFits(a: Parts, partSize: nat)
    requires a != [] && PartsFit(a, partSize)
    ensures PartsFit(a[1..], partSize)
  {
    assert forall i :: 0 <= i < |a| - 1 ==> a[1..][i] == a[i + 1];
  }

  lemma {:induction false} ValueFits(a: Parts, partSize: nat)
    requires a != [] && PartsFit(a, partSize)
    ensures Value(a, partSize) < Pow2(partSize + Below(a, partSize))
    ensures Value(a[1..], partSize) < Pow2(Below(a, partSize))
  {
    if |a| > 1 {
      RestFits(a, partSize);
      ValueFits(a[1..], partSize);
    } else {
      assert a[1..] == [];
    }
    Pow2Add(partSize, Below(a, partSize));
    TwoDigits(a[0], Value(a[1..], partSize), Pow2(Below(a, partSize)), Pow2(partSize));
  }

  /** The leading bits of an address that end within its first part. */
  lemma LeadingPart(a: Parts, partSize: nat, shift: nat)
    requires a != [] && PartsFit(a, partSize)
    ensures Value(a, partSize) / Pow2(Below(a, partSize) + shift) == a[0] / Pow2(shift)
  {
    var below := Below(a, partSize);
    ValueFits(a, partSize);
    Pow2Add(shift, below);
    QuotientOfQuotient(Value(a, partSize), Pow2(below), Pow2(shift));
    Mixed(a[0], Value(a[1..], partSize), Pow2(below));
  }

  /** The leading bits of an address that go beyond its first part: the part, and the bits of the others below it. */
  lemma LeadingParts(a: Parts, partSize: nat, more: nat)
    requires a != [] && PartsFit(a, partSize) && more <= Below(a, partSize)
    ensures var low := Value(a[1..], partSize) / Pow2(Below(a, partSize) - more);
            low < Pow2(more) && Value(a, partSize) / Pow2(Below(a, partSize) - more) == a[0] * Pow2(more) + low
  {
    ValueFits(a, partSize);
    Pow2Split(more, Below(a, partSize) - more, Below(a, partSize));
    DropLow(a[0], Pow2(more), Pow2(Below(a, partSize) - more), Value(a[1..], partSize), Pow2(Below(a, partSize)));
  }

  /** The leading bits as a number, part by part. */
  function Leading(a: Parts, partSize: nat, bits: nat): int {
    if a == [] || bits == 0 then 0
    else if bits <= partSize then a[0] / Pow2(partSize - bits)
    else a[0] * Pow2(bits - partSize) + Leading(a[1..], partSize, bits - partSize)
  }

  lemma QuotientOfPow2(v: nat, bits: nat, rest: nat, m: nat, d: nat, all: nat)
    requires m == Pow2(bits) && d == Pow2(rest) && v < all == Pow2(bits + rest)
    ensures 0 <= v / d < m
  {
    Pow2Add(bits, rest);
    assert all == m * d;
    QuotientBelow(v, d, m, all);
  }

  lemma QuotientFits(a: Parts, partSize: nat, bits: nat, rest: nat, size: nat)
    requires a != [] && PartsFit(a, partSize) && bits + rest == partSize + Below(a, partSize) && size == Pow2(rest)
    ensures 0 <= Value(a, partSize) / size < Pow2(bits)
  {
    ValueFits(a, partSize);
    QuotientOfPow2(Value(a, partSize), bits, rest, Pow2(bits), size, Pow2(bits + rest));
  }

  lemma LeadingNext(a: Parts, partSize: nat, more: nat, size: nat)
    requires a != [] && PartsFit(a, partSize) && 0 < more <= Below(a, partSize) && size == Pow2(Below(a, partSize) - more)
    requires Leading(a[1..], partSize, more) == Value(a[1..], partSize) / size
    ensures Leading(a, partSize, partSize + more) == Value(a, partSize) / size
  {
    LeadingParts(a, partSize, more);
  }

  lemma {:induction false} LeadingIsQuotient(a: Parts, partSize: nat, bits: nat)
    requires a != [] && PartsFit(a, partSize) && bits <= partSize + Below(a, partSize)
    ensures Leading(a, partSize, bits) == Value(a, partSize) / Pow2(partSize + Below(a, partSize) - bits)
  {
    if bits == 0 {
      QuotientFits(a, partSize, 0, partSize + Below(a, partSize), Pow2(partSize + Below(a, partSize)));
      assert Pow2(0) == 1;
    } else if bits <= partSize {
      LeadingPart(a, partSize, partSize - bits);
      assert partSize + Below(a, partSize) - bits == Below(a, partSize) + (partSize - bits);
    } else {
      RestFits(a, partSize);
      LeadingIsQuotient(a[1..], partSize, bits - partSize);
      LeadingNext(a, partSize, bits - partSize, Pow2(partSize + Below(a, partSize) - bits));
    }
  }

  /** Two addresses match in a number of bits exactly if so many leading bits agree. */
  lemma {:induction false} MatchesLeadingBits(a: Parts, b: Parts, partSize: nat, bits: nat)
    requires |a| == |b| > 0 && PartsFit(a, partSize) && PartsFit(b, partSize)
    requires bits <= partSize + Below(a, partSize) && bits <= partSize + Below(b, partSize)
    ensures Matches(a, b, partSize, bits) <==> Leading(a, partSize, bits) == Leading(b, partSize, bits)
  {
    if bits > partSize {
      RestFits(a, partSize);
      RestFits(b, partSize);
      MatchesLeadingBits(a[1..], b[1..], partSize, bits - partSize);
      LeadingIsQuotient(a[1..], partSize, bits - partSize);
      LeadingIsQuotient(b[1..], partSize, bits - partSize);
      var rest, rest' := Below(a, partSize) - (bits - partSize), Below(b, partSize) - (bits - partSize);
      QuotientFits(a[1..], partSize, bits - partSize, rest, Pow2(rest));
      QuotientFits(b[1..], partSize, bits - partSize, rest', Pow2(rest'));
      SameMixed(a[0], b[0], Leading(a[1..], partSize, bits - partSize), Leading(b[1..], partSize, bits - partSize), Pow2(bits - partSize));
      assert Pow2(0) == 1;
    }
  }

  lemma SameQuotient(x: nat, y: nat, d: nat)
    requires d > 0
    ensures x / d == y / d <==> y - y % d <= x < y - y % d + d
  {
    var q := y / d;
    assert y - y % d == q * d;
    if q * d <= x < q * d + d {
      Division(x, q, x - q * d, d);
    }
  }

  /** The addresses of a range are those from its network address on, as many as the bits that are left can number. */
  lemma RangeIsAnInterval(ip: Parts, base: Parts, partSize: nat, bits: nat)
    requires |ip| == |base| > 0 && PartsFit(ip, partSize) && PartsFit(base, partSize) && bits <= partSize * |ip|
    ensures var size := Pow2(partSize * |ip| - bits);
            var network := Value(base, partSize) - Value(base, partSize) % size;
            Matches(ip, base, partSize, bits) <==> network <= Value(ip, partSize) < network + size
  {
    BelowIs(ip, partSize);
    BelowIs(base, partSize);
    MatchesLeadingBits(ip, base, partSize, bits);
    LeadingIsQuotient(ip, partSize, bits);
    LeadingIsQuotient(base, partSize, bits);
    SameQuotient(Value(ip, partSize), Value(base, partSize), Pow2(partSize * |ip| - bits));
  }

  /** Octets are numbers of 8 bits and the parts of an IPv6 address are numbers of 16 bits. */
  lemma AddressPartsFit(a: Address)
    requires IsAddress(a)
    ensures match a case V4(octets) => PartsFit(octets, 8) case V6(parts) => PartsFit(parts, 16)
  {
    assert Pow2(2) == 4 && Pow2(4) == 16;
    Pow2Add(4, 4);
    Pow2Add(8, 8);
  }

  // ---------------------------------------------------------------- the first match

  /** The tags of the first entry that matches. */
  function FirstMatch(entries: seq<Entry>, ip: Parts, partSize: nat): Tags
    requires forall e :: e in entries ==> |e.range.base| == |ip|
  {
    if entries == [] then []
    else if Matches(ip, entries[0].range.base, partSize, entries[0].range.bits) then entries[0].tags
    else FirstMatch(entries[1..], ip, partSize)
  }

  /** Ranges of well-formed addresses whose prefix covers at least the first part. */
  ghost predicate Fits(entries: seq<Entry>, length: nat, partSize: nat) {
    forall e :: e in entries ==>
      |e.range.base| == length && PartsFit(e.range.base, partSize) && partSize <= e.range.bits <= partSize * length
  }

  /** The number of the address is in the interval of the range. */
  ghost predicate Contains(range: Range, ip: Parts, partSize: nat) {
    range.bits <= partSize * |ip| &&
    var size := Pow2(partSize * |ip| - range.bits);
    var network := Value(range.base, partSize) - Value(range.base, partSize) % size;
    network <= Value(ip, partSize) < network + size
  }

  /** The tags of the first range that contains the address, and none if no range does. */
  ghost predicate TagsOfFirst(entries: seq<Entry>, ip: Parts, partSize: nat, tags: Tags) {
    || (tags == [] && forall j :: 0 <= j < |entries| ==> !Contains(entries[j].range, ip, partSize))
    || exists k :: 0 <= k < |entries| && tags == entries[k].tags && Contains(entries[k].range, ip, partSize) &&
                   forall j :: 0 <= j < k ==> !Contains(entries[j].range, ip, partSize)
  }

  /** The position of the first match; the number of entries if there is none. */
  ghost function FirstAt(entries: seq<Entry>, ip: Parts, partSize: nat): (k: nat)
    requires forall e :: e in entries ==> |e.range.base| == |ip|
    ensures k <= |entries| && FirstMatch(entries, ip, partSize) == if k < |entries| then entries[k].tags else []
    ensures k < |entries| ==> Matches(ip, entries[k].range.base, partSize, entries[k].range.bits)
    ensures forall j :: 0 <= j < k ==> !Matches(ip, entries[j].range.base, partSize, entries[j].range.bits)
  {
    if entries == [] || Matches(ip, entries[0].range.base, partSize, entries[0].range.bits) then 0
    else
      1 + FirstAt(entries[1..], ip, partSize)
  }

  lemma FirstMatchIsFirst(entries: seq<Entry>, ip: Parts, partSize: nat)
    requires Fits(entries, |ip|, partSize) && PartsFit(ip, partSize) && ip != []
    ensures TagsOfFirst(entries, ip, partSize, FirstMatch(entries, ip, partSize))
  {
    var k := FirstAt(entries, ip, partSize);
    forall j | 0 <= j < |entries|
      ensures Contains(entries[j].range, ip, partSize) <==> Matches(ip, entries[j].range.base, partSize, entries[j].range.bits) {
      assert entries[j] in entries;
      ContainsIfMatches(entries[j].range, ip, partSize);
    }
  }

  lemma ContainsIfMatches(range: Range, ip: Parts, partSize: nat)
    requires |range.base| == |ip| > 0 && PartsFit(ip, partSize) && PartsFit(range.base, partSize) && range.bits <= partSize * |ip|
    ensures Contains(range, ip, partSize) <==> Matches(ip, range.base, partSize, range.bits)
  {
    RangeIsAnInterval(ip, range.base, partSize, range.bits);
  }

  function InBucket(entries: seq<Entry>, first: nat): seq<Entry> {
    if entries == [] then []
    else
      var init, last := InBucket(entries[..|entries| - 1], first), entries[|entries| - 1];
      if last.range.base != [] && last.range.base[0] == first then init + [last] else init
  }

  lemma LongPrefixFixesFirstPart(a: Parts, b: Parts, partSize: nat, bits: nat)
    requires |a| == |b| > 0 && bits >= partSize > 0 && Matches(a, b, partSize, bits)
    ensures a[0] == b[0]
  {
    assert Pow2(0) == 1;
  }

  lemma {:induction false} FirstMatchAdds(e1: seq<Entry>, e2: seq<Entry>, ip: Parts, partSize: nat)
    requires forall e :: e in e1 + e2 ==> |e.range.base| == |ip|
    requires forall e :: e in e1 ==> |e.range.base| == |ip|
    requires forall e :: e in e2 ==> |e.range.base| == |ip|
    requires forall e :: e in e1 ==> !Matches(ip, e.range.base, partSize, e.range.bits)
    ensures FirstMatch(e1 + e2, ip, partSize) == FirstMatch(e2, ip, partSize)
  {
    if e1 == [] {
      assert e1 + e2 == e2;
    } else {
      assert (e1 + e2)[1..] == e1[1..] + e2;
      FirstMatchAdds(e1[1..], e2, ip, partSize);
    }
  }

  lemma {:induction false} FirstMatchKeeps(e1: seq<Entry>, e: Entry, ip: Parts, partSize: nat, k: nat)
    requires forall x :: x in e1 + [e] ==> |x.range.base| == |ip|
    requires k < |e1| && Matches(ip, e1[k].range.base, partSize, e1[k].range.bits)
    requires forall x :: x in e1 ==> |x.range.base| == |ip|
    ensures FirstMatch(e1 + [e], ip, partSize) == FirstMatch(e1, ip, partSize)
  {
    assert (e1 + [e])[1..] == e1[1..] + [e];
    if !Matches(ip, e1[0].range.base, partSize, e1[0].range.bits) {
      FirstMatchKeeps(e1[1..], e, ip, partSize, k - 1);
    }
  }

  ghost predicate AnyMatch(entries: seq<Entry>, ip: Parts, partSize: nat)
    requires forall e :: e in entries ==> |e.range.base| == |ip|
  {
    exists k :: 0 <= k < |entries| && Matches(ip, entries[k].range.base, partSize, entries[k].range.bits)
  }

  lemma FirstMatchOneMore(entries: seq<Entry>, e: Entry, ip: Parts, partSize: nat)
    requires |e.range.base| == |ip| && forall x :: x in entries ==> |x.range.base| == |ip|
    ensures forall x :: x in entries + [e] ==> |x.range.base| == |ip|
    ensures FirstMatch(entries + [e], ip, partSize) ==
            if AnyMatch(entries, ip, partSize) then FirstMatch(entries, ip, partSize)
            else if Matches(ip, e.range.base, partSize, e.range.bits) then e.tags else []
  {
    if AnyMatch(entries, ip, partSize) {
      var k :| 0 <= k < |entries| && Matches(ip, entries[k].range.base, partSize, entries[k].range.bits);
      FirstMatchKeeps(entries, e, ip, partSize, k);
    } else {
      assert forall x :: x in entries ==> !Matches(ip, x.range.base, partSize, x.range.bits);
      FirstMatchAdds(entries, [e], ip, partSize);
      assert [e][1..] == [];
    }
  }

  /** The bucket of the first part has all the ranges that can match, in their order of insertion. */
  lemma {:induction false} BucketAgrees(entries: seq<Entry>, ip: Parts, partSize: nat)
    requires ip != [] && partSize > 0 && Fits(entries, |ip|, partSize)
    ensures Fits(InBucket(entries, ip[0]), |ip|, partSize)
    ensures AnyMatch(InBucket(entries, ip[0]), ip, partSize) <==> AnyMatch(entries, ip, partSize)
    ensures FirstMatch(InBucket(entries, ip[0]), ip, partSize) == FirstMatch(entries, ip, partSize)
  {
    if entries != [] {
      var init, e := entries[..|entries| - 1], entries[|entries| - 1];
      assert entries == init + [e];
      BucketAgrees(init, ip, partSize);
      var bucket := InBucket(init, ip[0]);
      FirstMatchOneMore(init, e, ip, partSize);
      FirstMatchOneMore(bucket, e, ip, partSize);
      AnyMatchOneMore(init, e, ip, partSize);
      AnyMatchOneMore(bucket, e, ip, partSize);
      if Matches(ip, e.range.base, partSize, e.range.bits) {
        LongPrefixFixesFirstPart(ip, e.range.base, partSize, e.range.bits);
      }
      NoMatchNoTags(bucket, ip, partSize);
    }
  }

  lemma AnyMatchOneMore(entries: seq<Entry>, e: Entry, ip: Parts, partSize: nat)
    requires |e.range.base| == |ip| && forall x :: x in entries ==> |x.range.base| == |ip|
    ensures forall x :: x in entries + [e] ==> |x.range.base| == |ip|
    ensures AnyMatch(entries + [e], ip, partSize) <==> AnyMatch(entries, ip, partSize) || Matches(ip, e.range.base, partSize, e.range.bits)
  {
    var all := entries + [e];
    assert all[|entries|] == e && forall k :: 0 <= k < |entries| ==> all[k] == entries[k];
  }

  lemma {:induction false} NoMatchNoTags(entries: seq<Entry>, ip: Parts, partSize: nat)
    requires forall x :: x in entries ==> |x.range.base| == |ip|
    ensures !AnyMatch(entries, ip, partSize) ==> FirstMatch(entries, ip, partSize) == []
  {
    if entries != [] && !AnyMatch(entries, ip, partSize) {
      assert !Matches(ip, entries[0].range.base, partSize, entries[0].range.bits);
      assert forall k :: 0 <= k < |entries| - 1 ==> entries[1..][k] == entries[k + 1];
      NoMatchNoTags(entries[1..], ip, partSize);
    }
  }

  // ---------------------------------------------------------------- prefixes that are too short

  function Neighbour(n: nat): nat {
    if n % 2 == 0 then n + 1 else n - 1
  }

  lemma {:induction false} NeighbourShifted(n: nat, shift: nat)
    requires shift > 0
    ensures Neighbour(n) / Pow2(shift) == n / Pow2(shift)
  {
    if shift == 1 {
      assert Pow2(1) == 2 * Pow2(0) == 2;
    } else {
      NeighbourShifted(n, shift - 1);
      HalfAgain(n, Pow2(shift - 1));
      HalfAgain(Neighbour(n), Pow2(shift - 1));
    }
  }

  lemma HalfAgain(n: nat, d: nat)
    requires d > 0
    ensures n / (2 * d) == n / d / 2
  {
    var q, r := n / d, n % d;
    var h, b := q / 2, q % 2;
    assert n == q * d + r && q == 2 * h + b;
    assert n == h * (2 * d) + (b * d + r) by {
      assert q * d == (2 * h) * d + b * d;
    }
    assert 0 <= b * d + r < 2 * d;
    Division(n, h, b * d + r, 2 * d);
  }

  lemma BucketOfOne(e: Entry, first: nat)
    ensures InBucket([e], first) == if e.range.base != [] && e.range.base[0] == first then [e] else []
  {
    assert [e][..0] == [];
  }

  lemma ShortPrefixIsMissed(e: Entry, partSize: nat) returns (ip: Parts)
    requires e.range.base != [] && e.range.bits < partSize
    ensures |ip| == |e.range.base| && Matches(ip, e.range.base, partSize, e.range.bits) && InBucket([e], ip[0]) == []
  {
    ip := e.range.base[0 := Neighbour(e.range.base[0])];
    NeighbourShifted(e.range.base[0], partSize - e.range.bits);
    BucketOfOne(e, ip[0]);
  }

  /** One range is found for every address it contains exactly if its prefix covers the first part. */
  lemma BucketFindsRange(e: Entry, partSize: nat)
    requires partSize > 0 && e.range.base != []
    ensures e.range.bits >= partSize <==>
            forall ip: Parts :: |ip| == |e.range.base| && Matches(ip, e.range.base, partSize, e.range.bits) ==> InBucket([e], ip[0]) == [e]
  {
    if e.range.bits < partSize {
      var ip := ShortPrefixIsMissed(e, partSize);
      assert InBucket([e], ip[0]) != [e];
    } else {
      forall ip: Parts | |ip| == |e.range.base| && Matches(ip, e.range.base, partSize, e.range.bits) ensures InBucket([e], ip[0]) == [e] {
        LongPrefixFixesFirstPart(ip, e.range.base, partSize, e.range.bits);
        BucketOfOne(e, ip[0]);
      }
    }
  }

  // ---------------------------------------------------------------- the buckets

  class Buckets {
    var ipV4Ranges: map<nat, seq<Entry>>
    var ipV6Ranges: map<nat, seq<Entry>>
    ghost var inserted4: seq<Entry>
    ghost var inserted6: seq<Entry>

    constructor ()
      ensures Consistent() && inserted4 == [] && inserted6 == []
    {
      ipV4Ranges, ipV6Ranges, inserted4, inserted6 := map[], map[], [], [];
    }

    ghost predicate Consistent()
      reads this
    {
      && Fits(inserted4, 4, 8) && Fits(inserted6, 8, 16)
      && (forall n :: Lookup(ipV4Ranges, n).GetOr([]) == InBucket(inserted4, n))
      && (forall n :: Lookup(ipV6Ranges, n).GetOr([]) == InBucket(inserted6, n))
    }

    method AddIpv4Range(range: Range, tags: Tags)
      requires Consistent() && IsV4(range.base) && 8 <= range.bits <= 32
      modifies this`ipV4Ranges, this`inserted4
      ensures Consistent() && inserted4 == old(inserted4) + [Entry(range, tags)]
    {
      var first := range.base[0];
      AddressPartsFit(V4(range.base));
      assert (inserted4 + [Entry(range, tags)])[..|inserted4|] == inserted4;
      assert Lookup(ipV4Ranges, first).GetOr([]) == InBucket(inserted4, first);
      if first !in ipV4Ranges {
        ipV4Ranges := ipV4Ranges[first := []];
      }
      ipV4Ranges := ipV4Ranges[first := ipV4Ranges[first] + [Entry(range, tags)]];
      inserted4 := inserted4 + [Entry(range, tags)];
      forall n ensures Lookup(ipV4Ranges, n).GetOr([]) == InBucket(inserted4, n) {
        assert n != first ==> Lookup(ipV4Ranges, n) == Lookup(old(ipV4Ranges), n);
      }
    }

    method AddIpv6Range(range: Range, tags: Tags)
      requires Consistent() && IsV6(range.base) && 16 <= range.bits <= 128
      modifies this`ipV6Ranges, this`inserted6
      ensures Consistent() && inserted6 == old(inserted6) + [Entry(range, tags)]
    {
      var first := range.base[0];
      AddressPartsFit(V6(range.base));
      assert (inserted6 + [Entry(range, tags)])[..|inserted6|] == inserted6;
      assert Lookup(ipV6Ranges, first).GetOr([]) == InBucket(inserted6, first);
      if first !in ipV6Ranges {
        ipV6Ranges := ipV6Ranges[first := []];
      }
      ipV6Ranges := ipV6Ranges[first := ipV6Ranges[first] + [Entry(range, tags)]];
      inserted6 := inserted6 + [Entry(range, tags)];
      forall n ensures Lookup(ipV6Ranges, n).GetOr([]) == InBucket(inserted6, n) {
        assert n != first ==> Lookup(ipV6Ranges, n) == Lookup(old(ipV6Ranges), n);
      }
    }

    method SearchBucket(bucket: seq<Entry>, ip: Parts, partSize: nat) returns (tags: Tags)
      requires forall e :: e in bucket ==> |e.range.base| == |ip|
      ensures tags == FirstMatch(bucket, ip, partSize)
    {
      assert bucket[0..] == bucket;
      for i := 0 to |bucket|
        invariant FirstMatch(bucket, ip, partSize) == FirstMatch(bucket[i..], ip, partSize)
      {
        assert bucket[i..][1..] == bucket[i + 1..];
        if Matches(ip, bucket[i].range.base, partSize, bucket[i].range.bits) {
          return bucket[i].tags;
        }
      }
      return [];
    }

    /** The tags are those of a scan over all ranges of the address family, in their order of insertion. */
    method GetCloudTags(address: Address) returns (tags: Tags)
      requires Consistent() && IsAddress(address)
      ensures match address
              case V4(octets) => TagsOfFirst(inserted4, octets, 8, tags)
              case V6(parts) => TagsOfFirst(inserted6, parts, 16, tags)
    {
      AddressPartsFit(address);
      match address
      case V4(octets) =>
        BucketAgrees(inserted4, octets, 8);
        FirstMatchIsFirst(inserted4, octets, 8);
        assert Lookup(ipV4Ranges, octets[0]).GetOr([]) == InBucket(inserted4, octets[0]);
        if octets[0] in ipV4Ranges {
          tags := SearchBucket(ipV4Ranges[octets[0]], octets, 8);
        } else {
          tags := [];
        }
      case V6(parts) =>
        BucketAgrees(inserted6, parts, 16);
        FirstMatchIsFirst(inserted6, parts, 16);
        assert Lookup(ipV6Ranges, parts[0]).GetOr([]) == InBucket(inserted6, parts[0]);
        if parts[0] in ipV6Ranges {
          tags := SearchBucket(ipV6Ranges[parts[0]], parts, 16);
        } else {
          tags := [];
        }
    }
  }
}
