/** IPv6 rate-limit keys (devices.ts): every valid spelling of an address (RFC 4291,
    section 2.2) gives the same groups, and so the same /64 and /48 key. */
module Ipv6 {
  import opened Common

  // --- Text --------------------------------------------------------------------------------------

  predicate Space(c: char) {
    || c == ' ' || '\t' <= c <= '\r' || c == '\U{00A0}' || c == '\U{1680}' || '\U{2000}' <= c <= '\U{200A}'
    || c == '\U{2028}' || c == '\U{2029}' || c == '\U{202F}' || c == '\U{205F}' || c == '\U{3000}' || c == '\U{FEFF}'
  }

  /** The white space and line ends of ECMAScript, by code. */
  lemma SpaceIs(c: char)
    ensures Space(c) <==>
      (c as int) in {9, 10, 11, 12, 13, 32, 160, 5760, 8192, 8193, 8194, 8195, 8196, 8197, 8198, 8199, 8200, 8201,
                     8202, 8232, 8233, 8239, 8287, 12288, 65279}
  {
  }

  function TrimStart(s: string): string {
    if s != [] && Space(s[0]) then TrimStart(s[1..]) else s
  }

  function TrimEnd(s: string): string {
    if s != [] && Space(s[|s| - 1]) then TrimEnd(s[..|s| - 1]) else s
  }

  function Lower(c: char): char {
    if 'A' <= c <= 'Z' then ((c as int) + 32) as char else c
  }

  function LowerAll(s: string): (r: string)
    ensures |r| == |s| && forall k :: 0 <= k < |s| ==> r[k] == Lower(s[k])
  {
    seq(|s|, k requires 0 <= k < |s| => Lower(s[k]))
  }

  /** Without a bracket at either end. */
  function Unbracket(s: string): string {
    var r := if s != [] && s[0] == '[' then s[1..] else s;
    if r != [] && r[|r| - 1] == ']' then r[..|r| - 1] else r
  }

  function Before(s: string, c: char): string {
    if s == [] || s[0] == c then [] else [s[0]] + Before(s[1..], c)
  }

  /** The parts between single separators. */
  function Split(s: string, c: char): (r: seq<string>)
    ensures |r| > 0
  {
    if s == [] then [[]]
    else
      var r := Split(s[1..], c);
      if s[0] == c then [[]] + r else [[s[0]] + r[0]] + r[1..]
  }

  /** The parts between "::", from the left. */
  function Halves(s: string): (r: seq<string>)
    ensures |r| > 0
  {
    if s == [] then [[]]
    else if |s| >= 2 && s[0] == ':' && s[1] == ':' then [[]] + Halves(s[2..])
    else
      var r := Halves(s[1..]);
      [[s[0]] + r[0]] + r[1..]
  }

  function Join(l: seq<string>): string {
    if l == [] then [] else if |l| == 1 then l[0] else Join(l[..|l| - 1]) + ":" + l[|l| - 1]
  }

  // --- Numbers ------------------------------------------------------------------------------------------

  function HexDigit(n: nat): char
    requires n < 16
  {
    if n < 10 then ('0' as int + n) as char else ('a' as int + n - 10) as char
  }

  predicate IsHex(c: char) { Digit(c) || 'a' <= c <= 'f' }

  function HexDigitValue(c: char): (r: nat)
    ensures r < 16 && (IsHex(c) ==> HexDigit(r) == c)
  {
    if Digit(c) then c as int - '0' as int else if IsHex(c) then c as int - 'a' as int + 10 else 0
  }

  /** A number in base 16. */
  function Hex(n: nat): string {
    if n < 16 then [HexDigit(n)] else Hex(n / 16) + [HexDigit(n % 16)]
  }

  predicate AllHex(s: string) { forall k :: 0 <= k < |s| ==> IsHex(s[k]) }

  /** The number written by the first k digits. */
  function HexUpTo(s: string, k: nat): nat
    requires k <= |s|
  {
    if k == 0 then 0 else HexUpTo(s, k - 1) * 16 + HexDigitValue(s[k - 1])
  }

  function HexValue(s: string): nat { HexUpTo(s, |s|) }

  function StripZeros(s: string): string {
    if |s| > 1 && s[0] == '0' then StripZeros(s[1..]) else s
  }

  lemma {:induction false} LeadingZero(s: string, k: nat)
    requires 1 <= k <= |s| && s[0] == '0'
    ensures HexUpTo(s[1..], k - 1) == HexUpTo(s, k)
  {
    if k > 1 { LeadingZero(s, k - 1); }
  }

  lemma {:induction false} HexStep(high: nat, low: nat)
    requires high > 0 && low < 16
    ensures Hex(high * 16 + low) == Hex(high) + [HexDigit(low)]
  {
    assert (high * 16 + low) / 16 == high && (high * 16 + low) % 16 == low;
  }

  lemma {:induction false} HexPositive(s: string, k: nat)
    requires AllHex(s) && 1 <= k <= |s| && s[0] != '0'
    ensures HexUpTo(s, k) > 0
  {
    if k > 1 { HexPositive(s, k - 1); } else { assert HexUpTo(s, 0) == 0; }
  }

  lemma {:induction false} HexOfValue(s: string, k: nat)
    requires AllHex(s) && 1 <= k <= |s| && (k == 1 || s[0] != '0')
    ensures Hex(HexUpTo(s, k)) == s[..k]
  {
    var high, low := HexUpTo(s, k - 1), HexDigitValue(s[k - 1]);
    assert s[..k] == s[..k - 1] + [HexDigit(low)];
    if k > 1 {
      HexOfValue(s, k - 1);
      HexPositive(s, k - 1);
      HexStep(high, low);
    } else {
      assert high == 0;
    }
  }

  /** Without its leading zeros a group is its number. */
  lemma {:induction false} Stripped(s: string)
    requires AllHex(s) && s != []
    ensures StripZeros(s) == Hex(HexValue(s))
  {
    if |s| > 1 && s[0] == '0' {
      LeadingZero(s, |s|);
      Stripped(s[1..]);
    } else {
      HexOfValue(s, |s|);
      assert s[..|s|] == s;
    }
  }

  lemma {:induction false} HexSame(a: string, b: string, k: nat)
    requires k <= |a| && k <= |b| && a[..k] == b[..k]
    ensures HexUpTo(a, k) == HexUpTo(b, k)
  {
    if k > 0 {
      assert a[..k][..k - 1] == a[..k - 1] && b[..k][..k - 1] == b[..k - 1];
      HexSame(a, b, k - 1);
      assert a[k - 1] == a[..k][k - 1] == b[..k][k - 1] == b[k - 1];
    }
  }

  lemma {:induction false} HexRoundTrip(n: nat)
    ensures AllHex(Hex(n)) && Hex(n) != [] && HexValue(Hex(n)) == n
  {
    var s := Hex(n);
    if n >= 16 {
      HexRoundTrip(n / 16);
      var high := Hex(n / 16);
      assert s[..|high|] == high == high[..|high|];
      HexSame(s, high, |high|);
    } else {
      assert HexUpTo(s, 0) == 0;
    }
  }

  lemma {:induction false} HexLength(n: nat, k: nat)
    requires k > 0 && n < SixteenTo(k)
    ensures |Hex(n)| <= k
  {
    if n >= 16 { HexLength(n / 16, k - 1); }
  }

  function SixteenTo(k: nat): (r: nat)
    ensures r > 0
  {
    if k == 0 then 1 else 16 * SixteenTo(k - 1)
  }

  /** Bitwise or of the low `bits` bits. */
  function OrBits(a: nat, b: nat, bits: nat): nat {
    if bits == 0 then 0 else 2 * OrBits(a / 2, b / 2, bits - 1) + if a % 2 == 1 || b % 2 == 1 then 1 else 0
  }

  /** Bitwise or. */
  function Or(a: nat, b: nat): nat { OrBits(a, b, a + b) }

  lemma {:induction false} BitsEnough(n: nat)
    ensures n < TwoTo(n)
  {
    if n > 0 { BitsEnough(n - 1); }
  }

  lemma {:induction false} OrZero(a: nat, bits: nat)
    requires a < TwoTo(bits)
    ensures OrBits(a, 0, bits) == a
  {
    if bits > 0 { OrZero(a / 2, bits - 1); }
  }

  lemma {:induction false} OrDisjoint(a: nat, b: nat, low: nat, bits: nat)
    requires b < TwoTo(low) && a * TwoTo(low) < TwoTo(bits) && b < TwoTo(bits)
    ensures OrBits(a * TwoTo(low), b, bits) == a * TwoTo(low) + b
  {
    if low == 0 || bits == 0 {
      if low == 0 { OrZero(a, bits); }
    } else {
      var x := a * TwoTo(low - 1);
      assert a * TwoTo(low) == 2 * x;
      OrDisjoint(a, b / 2, low - 1, bits - 1);
    }
  }

  // --- The parser ---------------------------------------------------------------------------------------

  /** How many digits end at index k. */
  function DigitsBefore(s: string, k: nat): (n: nat)
    requires k <= |s|
    ensures n <= k
  {
    if k > 0 && Digit(s[k - 1]) then 1 + DigitsBefore(s, k - 1) else 0
  }

  /** The number written in s[lo..hi]. */
  function NumberIn(s: string, lo: nat, hi: nat): nat
    requires lo <= hi <= |s|
    decreases hi
  {
    if lo == hi then 0 else NumberIn(s, lo, hi - 1) * 10 + if Digit(s[hi - 1]) then s[hi - 1] as nat - '0' as nat else 0
  }

  /** Where an octet that ends at index k starts, if a dot is before it. */
  function OctetBefore(s: string, k: nat): (start: Option<nat>)
    requires k <= |s|
    ensures start.Some? ==> 0 < start.value < k
  {
    var n := DigitsBefore(s, k);
    if 1 <= n <= 3 && n < k && s[k - n - 1] == '.' then Some(k - n) else None
  }

  /** Where four octets start. */
  datatype Places = Places(a: nat, b: nat, c: nat, d: nat)

  function OctetStarts(s: string): (r: Option<Places>)
    ensures r.Some? ==> r.value.a < r.value.b < r.value.c < r.value.d <= |s|
  {
    var d := OctetBefore(s, |s|);
    var c := if d.Some? then OctetBefore(s, d.value - 1) else None;
    var b := if c.Some? then OctetBefore(s, c.value - 1) else None;
    if b.None? then None
    else
      var n := Min(DigitsBefore(s, b.value - 1), 3);
      if n == 0 then None else Some(Places(b.value - 1 - n, b.value, c.value, d.value))
  }

  /** Two octets as one group. */
  function Pair(a: nat, b: nat): string { Hex(Or(a * 256, b)) }

  function Regrouped(s: string, p: Places, group: (nat, nat) -> string): string
    requires p.a < p.b < p.c < p.d <= |s|
  {
    s[..p.a] + group(NumberIn(s, p.a, p.b - 1), NumberIn(s, p.b, p.c - 1)) + ":"
             + group(NumberIn(s, p.c, p.d - 1), NumberIn(s, p.d, |s|))
  }

  /** An embedded IPv4 tail as two groups, each made of two octets by `group`; any
      other text as it is. */
  function WithoutV4(s: string, group: (nat, nat) -> string): string {
    var o := OctetStarts(s);
    if o.None? then s else Regrouped(s, o.value, group)
  }

  predicate IsGroup(s: string) { 1 <= |s| <= 4 && AllHex(s) }

  predicate AllGroups(l: seq<string>) { forall k :: 0 <= k < |l| ==> IsGroup(l[k]) }

  function Parts(half: string): seq<string> {
    if half == [] then [] else Split(half, ':')
  }

  function StripAll(l: seq<string>): (r: seq<string>)
    ensures |r| == |l| && forall k :: 0 <= k < |l| ==> r[k] == StripZeros(l[k])
  {
    seq(|l|, k requires 0 <= k < |l| => StripZeros(l[k]))
  }

  function Zeros(n: nat): (r: seq<string>)
    ensures |r| == n && forall k :: 0 <= k < n ==> r[k] == "0"
  {
    seq(n, _ => "0")
  }

  function GroupsOf(text: string): Option<seq<string>> {
    var halves := Halves(text);
    if |halves| > 2 then None
    else
      var head := Parts(halves[0]);
      var tail := if |halves| == 2 then Parts(halves[1]) else [];
      var missing := 8 - |head| - |tail|;
      if (|halves| == 1 && missing != 0) || missing < 0 then None
      else
        var groups := head + Zeros(if |halves| == 2 then missing else 0) + tail;
        if |groups| != 8 || !AllGroups(groups) then None else Some(StripAll(groups))
  }

  /** The eight groups of an IPv6 address, or none when the text is not IPv6. */
  function Groups(address: string): Option<seq<string>> {
    if ':' !in address then None
    else GroupsOf(WithoutV4(Before(Unbracket(LowerAll(TrimEnd(TrimStart(address)))), '%'), Pair))
  }

  function Prefix(address: string, n: nat): Option<string>
    requires n <= 8
  {
    var groups := Groups(address);
    if groups.None? || |groups.value| < n then None else Some(Join(groups.value[..n]))
  }

  /** The /64 of an IPv6 address, which one subscriber usually holds, and its /48, a
      site's whole allocation. */
  function Prefix64(address: string): Option<string> { Prefix(address, 4) }

  function Prefix48(address: string): Option<string> { Prefix(address, 3) }
}
