/** Checkpoint ids: their order as text, the time a version 6 UUID carries (section 5.6 of
    RFC 9562), and why the one follows the other. */
module CheckpointId {
  import opened Wrappers

  // ---- Text order --------------------------------------------------------------------------

  predicate Less(a: string, b: string) {
    b != "" && (a == "" || a[0] < b[0] || (a[0] == b[0] && Less(a[1..], b[1..])))
  }

  lemma {:induction false} LessIsTransitive(a: string, b: string, c: string)
    requires Less(a, b) && Less(b, c)
    ensures Less(a, c)
  {
    if a != "" && a[0] == b[0] && b[0] == c[0] { LessIsTransitive(a[1..], b[1..], c[1..]); }
  }

  lemma {:induction false} LessIsTotal(a: string, b: string)
    ensures Less(a, b) || Less(b, a) || a == b
    ensures !(Less(a, b) && Less(b, a)) && !Less(a, a)
  {
    if a != "" && b != "" {
      LessIsTotal(a[1..], b[1..]);
      LessIsTotal(a[1..], a[1..]);
      if a[0] == b[0] && a[1..] == b[1..] { assert a == [a[0]] + a[1..] == b; }
    } else if a != "" {
      LessIsTotal(a[1..], a[1..]);
    }
  }

  // ---- Hexadecimal -----------------------------------------------------------------------------

  predicate IsHex(c: char) {
    '0' <= c <= '9' || 'a' <= c <= 'f' || 'A' <= c <= 'F'
  }

  function DigitOf(c: char): (d: nat)
    requires IsHex(c)
    ensures d < 16
  {
    if c <= '9' then c as int - '0' as int
    else if c <= 'F' then c as int - 'A' as int + 10
    else c as int - 'a' as int + 10
  }

  predicate AllHex(s: string) {
    forall i :: 0 <= i < |s| ==> IsHex(s[i])
  }

  function HexValue(s: string): nat
    requires AllHex(s)
  {
    if s == "" then 0 else HexValue(s[..|s| - 1]) * 16 + DigitOf(s[|s| - 1])
  }

  // ---- Reading the time ------------------------------------------------------------------------

  function WithoutHyphens(s: string): string {
    if s == "" then "" else
    WithoutHyphens(s[..|s| - 1]) + if s[|s| - 1] == '-' then "" else [s[|s| - 1]]
  }

  /** The 128 bits of a UUID written as 32 hexadecimal digits, hyphens anywhere. */
  function UuidBits(s: string): Option<nat> {
    var digits := WithoutHyphens(s);
    if |digits| == 32 && AllHex(digits) then Some(HexValue(digits)) else None
  }

  const BITS_62 := 0x4000_0000_0000_0000
  const BITS_64 := 0x1_0000_0000_0000_0000
  const BITS_76 := 0x1000_0000_0000_0000_0000
  const BITS_80 := 0x1_0000_0000_0000_0000_0000
  const BITS_96 := 0x1_0000_0000_0000_0000_0000_0000

  /** The variant bits are 10 and the version is 6. */
  predicate IsVersion6(i: nat) {
    i / BITS_62 % 4 == 2 && i / BITS_76 % 16 == 6
  }

  /** 100 ns intervals since the Gregorian epoch: the high 32 bits, the middle 16, the low 12. */
  function Ticks(i: nat): nat {
    (i / BITS_96 % 0x1_0000_0000) * 0x1000_0000 + (i / BITS_80 % 0x1_0000) * 0x1000 + i / BITS_64 % 0x1000
  }

  const GREGORIAN_OFFSET := 0x01B2_1DD2_1381_4000

  function UnixSeconds(id: string): Option<real> {
    var i := UuidBits(id);
    if i.None? || !IsVersion6(i.value) then None
    else Some((Ticks(i.value) - GREGORIAN_OFFSET) as real / 10000000.0)
  }

  // ---- Canonical ids ---------------------------------------------------------------------------

  predicate IsLowerHex(c: char) {
    '0' <= c <= '9' || 'a' <= c <= 'f'
  }

  predicate IsHyphen(i: int) {
    i == 8 || i == 13 || i == 18 || i == 23
  }

  /** The form ids are generated in: lower case, hyphens in the four usual places, version 6. */
  predicate Canonical(s: string) {
    && |s| == 36
    && (forall i :: 0 <= i < 36 ==> if IsHyphen(i) then s[i] == '-' else IsLowerHex(s[i]))
    && s[14] == '6' && s[19] in "89ab"
  }

  /** The digits of the time, most significant first. */
  function TimeDigits(s: string): string
    requires |s| == 36
  {
    s[..8] + s[9..13] + s[15..18]
  }

  lemma {:induction false} HyphensJoin(a: string, b: string)
    ensures WithoutHyphens(a + b) == WithoutHyphens(a) + WithoutHyphens(b)
  {
    if b == "" {
      assert a + b == a;
    } else {
      assert (a + b)[..|a + b| - 1] == a + b[..|b| - 1];
      HyphensJoin(a, b[..|b| - 1]);
    }
  }

  lemma {:induction false} NoHyphens(s: string)
    requires '-' !in s
    ensures WithoutHyphens(s) == s
  {
    if s != "" {
      NoHyphens(s[..|s| - 1]);
      assert s == s[..|s| - 1] + [s[|s| - 1]];
    }
  }

  lemma HyphenGroup(s: string, rest: string)
    requires '-' !in s
    ensures WithoutHyphens(s + ("-" + rest)) == s + WithoutHyphens(rest)
  {
    HyphensJoin(s, "-" + rest);
    HyphensJoin("-", rest);
    NoHyphens(s);
    assert "-"[..0] == "";
    assert WithoutHyphens("-") + WithoutHyphens(rest) == WithoutHyphens(rest);
  }

  lemma DropGroup(s: string, i: nat, j: nat)
    requires Canonical(s) && i <= j < 36 && IsHyphen(j) && forall k :: i <= k < j ==> !IsHyphen(k)
    ensures WithoutHyphens(s[i..]) == s[i..j] + WithoutHyphens(s[j + 1..])
  {
    HyphenGroup(s[i..j], s[j + 1..]);
    assert s[i..] == s[i..j] + ("-" + s[j + 1..]);
  }

  lemma CanonicalDigits(s: string)
    requires Canonical(s)
    ensures WithoutHyphens(s) == s[..8] + (s[9..13] + (s[14..18] + (s[19..23] + s[24..])))
  {
    assert s == s[0..];
    DropGroup(s, 0, 8);
    DropGroup(s, 9, 13);
    LastGroups(s);
  }

  lemma LastGroups(s: string)
    requires Canonical(s)
    ensures WithoutHyphens(s[14..]) == s[14..18] + (s[19..23] + s[24..])
  {
    DropGroup(s, 14, 18);
    DropGroup(s, 19, 23);
    NoHyphens(s[24..]);
  }

  // ---- Id order is time order ------------------------------------------------------------------------

  function Pow16(n: nat): nat {
    if n == 0 then 1 else Pow16(n - 1) * 16
  }

  lemma Carry(x: nat, p: nat, y: nat, d: nat)
    ensures (x * p + y) * 16 + d == x * (p * 16) + (y * 16 + d)
  {
  }

  lemma {:induction false} Pow16Adds(m: nat, n: nat)
    ensures Pow16(m + n) == Pow16(m) * Pow16(n)
  {
    if n > 0 {
      Pow16Adds(m, n - 1);
      Carry(Pow16(m), Pow16(n - 1), 0, 0);
    }
  }

  lemma Pow16s()
    ensures Pow16(3) == 0x1000 && Pow16(4) == 0x1_0000 && Pow16(8) == 0x1_0000_0000
    ensures Pow16(15) == BITS_62 / 4 && Pow16(16) == BITS_64 && Pow16(19) == BITS_76
    ensures Pow16(20) == BITS_80 && Pow16(24) == BITS_96
  {
  }

  lemma LastDigit(s: string, c: char)
    requires AllHex(s) && IsHex(c)
    ensures AllHex(s + [c]) && HexValue(s + [c]) == HexValue(s) * 16 + DigitOf(c)
  {
  }

  lemma {:induction false} HexSplits(a: string, b: string)
    requires AllHex(a) && AllHex(b)
    ensures AllHex(a + b) && HexValue(a + b) == HexValue(a) * Pow16(|b|) + HexValue(b)
    ensures HexValue(b) < Pow16(|b|)
  {
    if b == "" {
      assert a + b == a;
    } else {
      var init, c := b[..|b| - 1], b[|b| - 1];
      HexSplits(a, init);
      LastDigit(a + init, c);
      Carry(HexValue(a), Pow16(|init|), HexValue(init), DigitOf(c));
      assert a + b == (a + init) + [c];
    }
  }

  /** The 32 digits of a canonical id. */
  lemma CanonicalHex(s: string)
    requires Canonical(s)
    ensures var d := WithoutHyphens(s);
            && |d| == 32 && AllHex(d) && d[12] == s[14] && d[16] == s[19]
            && d[..8] == s[..8] && d[8..12] == s[9..13] && d[13..16] == s[15..18]
  {
    CanonicalDigits(s);
    var d := WithoutHyphens(s);
    forall k | 0 <= k < 32 ensures IsHex(d[k]) {
      var i := if k < 8 then k else if k < 12 then k + 1 else if k < 16 then k + 2 else if k < 20 then k + 3 else k + 4;
      assert d[k] == s[i];
    }
  }

  lemma {:induction false} AtLeastOnce(n: nat, w: nat)
    requires n > 0
    ensures n * w >= w
  {
  }

  lemma SameQuotient(q: nat, t: nat, h: nat, r: nat, w: nat)
    requires q * w + t == h * w + r && t < w && r < w
    ensures q == h && t == r
  {
    assert (h - q) * w == h * w - q * w && (q - h) * w == q * w - h * w;
    if q < h { AtLeastOnce(h - q, w); } else if q > h { AtLeastOnce(q - h, w); }
  }

  lemma DivMod(h: nat, r: nat, w: nat)
    requires r < w
    ensures (h * w + r) / w == h && (h * w + r) % w == r
  {
    var x := h * w + r;
    SameQuotient(x / w, x % w, h, r, w);
  }

  /** A run of digits is read off a number by a division and a remainder. */
  lemma FieldOf(d: string, lo: nat, hi: nat)
    requires AllHex(d) && lo <= hi <= |d|
    ensures 0 < Pow16(|d| - hi) && 0 < Pow16(hi - lo)
    ensures HexValue(d) / Pow16(|d| - hi) == HexValue(d[..hi])
    ensures HexValue(d[..hi]) % Pow16(hi - lo) == HexValue(d[lo..hi])
  {
    HexSplits(d[..hi], d[hi..]);
    assert d[..hi] + d[hi..] == d;
    DivMod(HexValue(d[..hi]), HexValue(d[hi..]), Pow16(|d| - hi));
    assert HexValue(d[..hi]) % Pow16(hi - lo) == HexValue(d[lo..hi]) && 0 < Pow16(hi - lo) by {
      HexSplits(d[..lo], d[lo..hi]);
      assert d[..lo] + d[lo..hi] == d[..hi];
      DivMod(HexValue(d[..lo]), HexValue(d[lo..hi]), Pow16(hi - lo));
    }
  }

  /** The bits of 32 digits, read at the time's places. */
  lemma FieldsOf(d: string)
    requires |d| == 32 && AllHex(d)
    ensures var v := HexValue(d);
            && v / BITS_96 % 0x1_0000_0000 == HexValue(d[..8])
            && v / BITS_80 % 0x1_0000 == HexValue(d[8..12])
            && v / BITS_64 % 0x1000 == HexValue(d[13..16])
  {
    Pow16s();
    FieldOf(d, 0, 8);
    assert d[0..8] == d[..8];
    FieldOf(d, 8, 12);
    FieldOf(d, 13, 16);
  }

  lemma Weights(m: nat, t: nat, w: nat)
    ensures (m * 4 + t) * w == m * (w * 4) + t * w
  {
  }

  lemma UnderFour(t: nat, r: nat, w: nat)
    requires t < 4 && r < w
    ensures t * w + r < w * 4
  {
    assert t == 0 || t == 1 || t == 2 || t == 3;
  }

  lemma QuarterOf(m: nat, t: nat, r: nat, w: nat)
    requires t < 4 && r < w
    ensures w * 4 > 0 && ((m * 4 + t) * w + r) / (w * 4) == m
  {
    UnderFour(t, r, w);
    Weights(m, t, w);
    DivMod(m, t * w + r, w * 4);
  }

  /** Shifting by two more bits is dividing by four once more. */
  lemma TwoMoreBits(v: nat, w: nat)
    requires w > 0
    ensures v / (w * 4) == v / w / 4
  {
    var k := v / w;
    assert v == k * w + v % w && k == k / 4 * 4 + k % 4;
    QuarterOf(k / 4, k % 4, v % w, w);
  }

  lemma DigitAt(d: string, i: nat)
    requires AllHex(d) && i < |d|
    ensures AllHex(d[..i]) && AllHex(d[..i + 1]) && IsHex(d[i])
    ensures HexValue(d[..i + 1]) == HexValue(d[..i]) * 16 + DigitOf(d[i])
  {
    LastDigit(d[..i], d[i]);
    assert d[..i + 1] == d[..i] + [d[i]];
  }

  lemma VersionDigit(d: string)
    requires |d| == 32 && AllHex(d)
    ensures IsHex(d[12]) && HexValue(d) / BITS_76 % 16 == DigitOf(d[12])
  {
    Pow16s();
    FieldOf(d, 0, 13);
    DigitAt(d, 12);
    LowBits(HexValue(d[..12]), DigitOf(d[12]));
  }

  lemma VariantDigit(d: string)
    requires |d| == 32 && AllHex(d)
    ensures IsHex(d[16]) && HexValue(d) / BITS_62 % 4 == DigitOf(d[16]) / 4
  {
    Pow16s();
    FieldOf(d, 0, 17);
    TwoMoreBits(HexValue(d), Pow16(15));
    DigitAt(d, 16);
    HighBits(HexValue(d[..16]), DigitOf(d[16]));
  }

  lemma LowBits(h: nat, c: nat)
    requires c < 16
    ensures (h * 16 + c) % 16 == c
  {
  }

  lemma HighBits(h: nat, c: nat)
    requires c < 16
    ensures (h * 16 + c) / 4 % 4 == c / 4
  {
  }

  lemma VersionOf(d: string)
    requires |d| == 32 && AllHex(d) && DigitOf(d[12]) == 6 && 8 <= DigitOf(d[16]) < 12
    ensures IsVersion6(HexValue(d))
  {
    VersionDigit(d);
    VariantDigit(d);
  }

  /** A canonical id is a version 6 UUID; its time is the value of its time digits. */
  lemma CanonicalReads(s: string)
    requires Canonical(s)
    ensures AllHex(TimeDigits(s)) && UuidBits(s).Some? && IsVersion6(UuidBits(s).value)
    ensures Ticks(UuidBits(s).value) == HexValue(TimeDigits(s))
  {
    CanonicalHex(s);
    var d := WithoutHyphens(s);
    FieldsOf(d);
    VersionOf(d);
    Pow16s();
    HexSplits(s[..8], s[9..13]);
    HexSplits(s[..8] + s[9..13], s[15..18]);
  }

  /** So a canonical id carries that many tenths of a microsecond since 15 October 1582, read as
      seconds since 1 January 1970. */
  lemma CanonicalTime(s: string)
    requires Canonical(s)
    ensures AllHex(TimeDigits(s))
    ensures UnixSeconds(s) == Some((HexValue(TimeDigits(s)) - 122192928000000000) as real / 10000000.0)
  {
    CanonicalReads(s);
  }

  lemma {:induction false} HexOrder(x: string, y: string, j: nat)
    requires |x| == |y| && AllHex(x) && AllHex(y) && j < |x|
    requires x[..j] == y[..j] && DigitOf(x[j]) < DigitOf(y[j])
    ensures HexValue(x) < HexValue(y)
  {
    var n := |x| - 1;
    if j < n {
      assert x[..n][..j] == x[..j] && y[..n][..j] == y[..j];
      HexOrder(x[..n], y[..n], j);
    }
  }

  lemma {:induction false} FirstDifference(a: string, b: string) returns (j: nat)
    requires Less(a, b) && |a| == |b|
    ensures j < |a| && a[..j] == b[..j] && a[j] < b[j]
  {
    if a[0] < b[0] {
      j := 0;
    } else {
      j := FirstDifference(a[1..], b[1..]);
      j := j + 1;
      assert a[..j] == [a[0]] + a[1..][..j - 1] && b[..j] == [b[0]] + b[1..][..j - 1];
    }
  }

  lemma SameSlices(a: string, b: string, j: nat, lo: nat, hi: nat)
    requires |a| == |b| && j <= |a| && a[..j] == b[..j] && lo <= hi <= j
    ensures a[lo..hi] == b[lo..hi]
  {
    forall k | lo <= k < hi ensures a[k] == b[k] { assert a[..j][k] == b[..j][k]; }
  }

  lemma TimeFirstDifference(a: string, b: string, j: nat)
    requires Canonical(a) && Canonical(b) && j < 18 && a[..j] == b[..j] && a[j] != b[j]
    ensures !IsHyphen(j) && j != 14
    ensures var at := if j < 8 then j else if j < 13 then j - 1 else j - 3;
            var x, y := TimeDigits(a), TimeDigits(b);
            at < |x| == |y| && x[..at] == y[..at] && x[at] == a[j] && y[at] == b[j]
  {
    var at := if j < 8 then j else if j < 13 then j - 1 else j - 3;
    var x, y := TimeDigits(a), TimeDigits(b);
    forall i | 0 <= i < at ensures x[i] == y[i] {
      var k := if i < 8 then i else if i < 12 then i + 1 else i + 3;
      assert x[i] == a[k] && y[i] == b[k];
      assert a[..j][k] == b[..j][k];
    }
  }

  /** Among canonical ids, a later id in text order never carries an earlier time. */
  lemma IdOrderIsTimeOrder(a: string, b: string)
    requires Canonical(a) && Canonical(b) && Less(a, b)
    ensures UnixSeconds(a).Some? && UnixSeconds(b).Some? && UnixSeconds(a).value <= UnixSeconds(b).value
  {
    CanonicalReads(a);
    CanonicalReads(b);
    var j := FirstDifference(a, b);
    if j < 18 {
      TimeFirstDifference(a, b, j);
      HexOrder(TimeDigits(a), TimeDigits(b), if j < 8 then j else if j < 13 then j - 1 else j - 3);
    } else {
      SameSlices(a, b, j, 0, 8);
      SameSlices(a, b, j, 9, 13);
      SameSlices(a, b, j, 15, 18);
    }
  }

  predicate PlainVersion6(d: string) {
    |d| == 32 && AllHex(d) && '-' !in d && DigitOf(d[12]) == 6 && 8 <= DigitOf(d[16]) < 12
  }

  lemma LaterSecondDigit(a: string, b: string)
    requires PlainVersion6(a) && PlainVersion6(b)
    requires a[0] == b[0] && a[8..12] == b[8..12] && a[13..16] == b[13..16] && DigitOf(b[1]) < DigitOf(a[1])
    ensures UnixSeconds(a).Some? && UnixSeconds(b).Some? && UnixSeconds(b).value < UnixSeconds(a).value
  {
    NoHyphens(a);
    NoHyphens(b);
    FieldsOf(a);
    FieldsOf(b);
    VersionOf(a);
    VersionOf(b);
    assert a[..8][..1] == b[..8][..1];
    HexOrder(b[..8], a[..8], 1);
  }

  /** A version 6 id, all zeros but for its first two digits. */
  function IdWith(second: char): string {
    seq(32, i => if i == 0 then '1' else if i == 1 then second
                 else if i == 12 then '6' else if i == 16 then '8' else '0')
  }

  /** Ids in mixed case break it: an id can precede another in text order and carry a later time. */
  lemma MixedCaseBreaksOrder() returns (late: string, early: string)
    ensures Less(late, early)
    ensures UnixSeconds(late).Some? && UnixSeconds(early).Some?
    ensures UnixSeconds(early).value < UnixSeconds(late).value
  {
    late, early := IdWith('F'), IdWith('e');
    assert late[8..12] == early[8..12] && late[13..16] == early[13..16];
    assert late[1..][0] == 'F' && early[1..][0] == 'e';
    LaterSecondDigit(late, early);
  }
}
