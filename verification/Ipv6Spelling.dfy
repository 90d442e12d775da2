/** The spellings of an IPv6 address, and that all of them parse alike. */
module Ipv6Spelling {
  import opened Common
  import opened Ipv6

  datatype Quad = Quad(a: string, b: string, c: string, d: string)

  /** The choices a spelling makes: how each group is written, where "::" stands for
      groups of zero, whether the last two groups are written as an IPv4 address,
      and what surrounds it all. */
  datatype Spelling = Spelling(
    head: seq<string>,
    gap: bool,
    tail: seq<string>,
    quad: Option<Quad>,
    before: string,
    after: string,
    brackets: bool,
    zone: Option<string>)

  predicate HexChar(c: char) { '0' <= c <= '9' || 'a' <= c <= 'f' || 'A' <= c <= 'F' }

  predicate HexText(t: string) { forall k :: 0 <= k < |t| ==> HexChar(t[k]) }

  predicate GroupText(t: string) { 1 <= |t| <= 4 && HexText(t) }

  predicate OctetText(t: string) {
    1 <= |t| <= 3 && (forall k :: 0 <= k < |t| ==> Digit(t[k])) && Decimal(t) < 256
  }

  predicate QuadText(q: Quad) {
    OctetText(q.a) && OctetText(q.b) && OctetText(q.c) && OctetText(q.d)
  }

  predicate GroupTexts(l: seq<string>) {
    forall k :: 0 <= k < |l| ==> GroupText(l[k])
  }

  function Written(s: Spelling): nat {
    |s.head| + |s.tail| + if s.quad.Some? then 2 else 0
  }

  predicate Spaces(t: string) { forall k :: 0 <= k < |t| ==> Space(t[k]) }

  predicate WellFormed(s: Spelling) {
    && GroupTexts(s.head) && GroupTexts(s.tail) && (s.quad.Some? ==> QuadText(s.quad.value))
    && (if s.gap then Written(s) <= 8 else s.tail == [] && Written(s) == 8)
    && Spaces(s.before) && Spaces(s.after)
    && (s.zone.Some? ==> forall k :: 0 <= k < |s.zone.value| ==> !Space(s.zone.value[k]))
  }

  function Dotted(q: Quad): string { q.a + "." + q.b + "." + q.c + "." + q.d }

  function Core(head: seq<string>, gap: bool, tail: seq<string>): string {
    if gap then Join(head) + "::" + Join(tail) else Join(head)
  }

  /** With more groups at the end. */
  function EndingOf(head: seq<string>, gap: bool, tail: seq<string>, more: seq<string>): string {
    if gap then Core(head, true, tail + more) else Core(head + more, false, [])
  }

  function Address(s: Spelling): string {
    EndingOf(s.head, s.gap, s.tail, if s.quad.Some? then [Dotted(s.quad.value)] else [])
  }

  function Zone(s: Spelling): string {
    if s.zone.Some? then "%" + s.zone.value else ""
  }

  function Wrapped(a: string, z: string, brackets: bool): string {
    (if brackets then "[" else "") + a + z + (if brackets then "]" else "")
  }

  /** The text. */
  function Render(s: Spelling): string {
    s.before + Wrapped(Address(s), Zone(s), s.brackets) + s.after
  }

  // --- What it means ------------------------------------------------------------------------------

  function Value(t: string): nat
    requires GroupText(t)
  {
    Number(t)
  }

  /** The number a text writes in base 16, in either case. */
  function Number(t: string): nat
    requires HexText(t)
  {
    if t == [] then 0 else Number(t[..|t| - 1]) * 16 + DigitOf(t[|t| - 1])
  }

  function DigitOf(c: char): nat
    requires HexChar(c)
  {
    if c <= '9' then c as int - 48 else if c <= 'F' then c as int - 55 else c as int - 87
  }

  lemma {:induction false} NumberOfLower(t: string)
    requires HexText(t)
    ensures AllHex(LowerAll(t)) && HexValue(LowerAll(t)) == Number(t)
  {
    if t == [] {
      assert HexUpTo(LowerAll(t), 0) == 0;
    } else {
      var n := |t| - 1;
      NumberOfLower(t[..n]);
      assert LowerAll(t)[..n] == LowerAll(t[..n]) == LowerAll(t[..n])[..n];
      HexSame(LowerAll(t), LowerAll(t[..n]), n);
    }
  }

  function Values(l: seq<string>): (r: seq<nat>)
    requires GroupTexts(l)
    ensures |r| == |l|
  {
    seq(|l|, k requires 0 <= k < |l| => Value(l[k]))
  }

  function QuadValues(q: Option<Quad>): seq<nat> {
    if q.None? then []
    else [Decimal(q.value.a) * 256 + Decimal(q.value.b), Decimal(q.value.c) * 256 + Decimal(q.value.d)]
  }

  function Nothing(n: nat): (r: seq<nat>)
    ensures |r| == n && forall k :: 0 <= k < n ==> r[k] == 0
  {
    seq(n, _ => 0)
  }

  /** The eight groups of the address. */
  function Meaning(s: Spelling): seq<nat>
    requires WellFormed(s)
  {
    Values(s.head) + Nothing(8 - Written(s)) + Values(s.tail) + QuadValues(s.quad)
  }

  function HexAll(l: seq<nat>): (r: seq<string>)
    ensures |r| == |l| && forall k :: 0 <= k < |l| ==> r[k] == Hex(l[k])
  {
    seq(|l|, k requires 0 <= k < |l| => Hex(l[k]))
  }

  // --- Splitting what was joined ----------------------------------------------------------------------

  predicate Free(s: string, c: char) { forall k :: 0 <= k < |s| ==> s[k] != c }

  lemma {:induction false} SplitFree(p: string, c: char)
    requires Free(p, c)
    ensures Split(p, c) == [p]
  {
    if p != [] {
      SplitFree(p[1..], c);
      assert [p[0]] + p[1..] == p;
    }
  }

  lemma {:induction false} SplitPart(p: string, c: char, rest: string)
    requires Free(p, c)
    ensures Split(p + [c] + rest, c) == [p] + Split(rest, c)
  {
    var t := p + [c] + rest;
    if p == [] {
      assert t[1..] == rest;
    } else {
      SplitPart(p[1..], c, rest);
      assert t[1..] == p[1..] + [c] + rest;
      assert [p[0]] + p[1..] == p;
    }
  }

  lemma {:induction false} JoinFront(l: seq<string>)
    requires |l| > 1
    ensures Join(l) == l[0] + ":" + Join(l[1..])
  {
    var n := |l| - 1;
    if n > 1 {
      JoinFront(l[..n]);
      assert l[..n][1..] == l[1..][..n - 1];
      assert l[0] + ":" + Join(l[1..n]) + ":" + l[n] == l[0] + ":" + (Join(l[1..n]) + ":" + l[n]);
      assert l[1..n] == l[1..][..n - 1];
    } else {
      assert l[..1] == [l[0]] && l[1..] == [l[1]];
    }
  }

  lemma {:induction false} SplitJoin(l: seq<string>)
    requires l != [] && forall k :: 0 <= k < |l| ==> Free(l[k], ':')
    ensures Split(Join(l), ':') == l
  {
    if |l| == 1 {
      SplitFree(l[0], ':');
    } else {
      JoinFront(l);
      SplitJoin(l[1..]);
      SplitPart(l[0], ':', Join(l[1..]));
    }
  }

  /** What can stand between colons. */
  predicate IsPart(s: string) { s != [] && Free(s, ':') }

  lemma {:induction false} PartsOfJoin(l: seq<string>)
    requires forall k :: 0 <= k < |l| ==> IsPart(l[k])
    ensures Parts(Join(l)) == l
  {
    if l != [] {
      SplitJoin(l);
      JoinNotEmpty(l);
    }
  }

  lemma {:induction false} JoinNotEmpty(l: seq<string>)
    requires l != [] && forall k :: 0 <= k < |l| ==> IsPart(l[k])
    ensures Join(l) != [] && Join(l)[0] != ':' && Join(l)[|Join(l)| - 1] != ':'
  {
    if |l| > 1 { JoinNotEmpty(l[..|l| - 1]); }
    assert IsPart(l[|l| - 1]);
  }

  /** No "::" inside, and no ":" at the front. */
  predicate Single(s: string) {
    forall k :: 0 <= k < |s| - 1 ==> !(s[k] == ':' && s[k + 1] == ':')
  }

  lemma {:induction false} JoinSingle(l: seq<string>)
    requires forall k :: 0 <= k < |l| ==> IsPart(l[k])
    ensures Single(Join(l))
  {
    if |l| == 1 {
      assert IsPart(l[0]);
    } else if |l| > 1 {
      var n := |l| - 1;
      JoinSingle(l[..n]);
      JoinNotEmpty(l[..n]);
      assert IsPart(l[n]);
      var a := Join(l[..n]);
      var j := a + ":" + l[n];
      forall k | 0 <= k < |j| - 1 ensures !(j[k] == ':' && j[k + 1] == ':') {
        if k + 1 < |a| { assert j[k] == a[k] && j[k + 1] == a[k + 1]; }
      }
    }
  }

  lemma {:induction false} HalvesSingle(s: string)
    requires Single(s)
    ensures Halves(s) == [s]
  {
    if s != [] {
      forall k | 0 <= k < |s[1..]| - 1 ensures !(s[1..][k] == ':' && s[1..][k + 1] == ':') {
        assert s[k + 1] == s[1..][k];
      }
      HalvesSingle(s[1..]);
      assert [s[0]] + s[1..] == s;
    }
  }

  lemma {:induction false} HalvesFront(a: string, rest: string)
    requires Single(a) && (a != [] ==> a[|a| - 1] != ':')
    ensures Halves(a + "::" + rest) == [a] + Halves(rest)
  {
    var s := a + "::" + rest;
    if a == [] {
      assert s[2..] == rest;
    } else {
      assert s[1..] == a[1..] + "::" + rest;
      forall k | 0 <= k < |a[1..]| - 1 ensures !(a[1..][k] == ':' && a[1..][k + 1] == ':') {
        assert a[k + 1] == a[1..][k];
      }
      HalvesFront(a[1..], rest);
      assert !(s[0] == ':' && s[1] == ':') by {
        if |a| > 1 { assert s[0] == a[0] && s[1] == a[1]; } else { assert s[0] == a[0]; }
      }
      assert [a[0]] + a[1..] == a;
    }
  }

  lemma {:induction false} HalvesAtGap(a: string, b: string)
    requires Single(a) && Single(b) && (a != [] ==> a[|a| - 1] != ':')
    ensures Halves(a + "::" + b) == [a, b]
  {
    HalvesFront(a, b);
    HalvesSingle(b);
  }

  lemma {:induction false} HalvesOfCore(head: seq<string>, gap: bool, tail: seq<string>)
    requires forall k :: 0 <= k < |head| ==> IsPart(head[k])
    requires forall k :: 0 <= k < |tail| ==> IsPart(tail[k])
    ensures Halves(Core(head, gap, tail)) == if gap then [Join(head), Join(tail)] else [Join(head)]
  {
    JoinSingle(head);
    JoinSingle(tail);
    if gap {
      if head != [] { JoinNotEmpty(head); }
      HalvesAtGap(Join(head), Join(tail));
    } else {
      HalvesSingle(Join(head));
    }
  }

  /** Two "::" are one too many. */
  lemma {:induction false} TwoGaps(head: seq<string>, middle: seq<string>, rest: string)
    requires forall k :: 0 <= k < |head| ==> IsPart(head[k])
    requires forall k :: 0 <= k < |middle| ==> IsPart(middle[k])
    ensures GroupsOf(Join(head) + "::" + (Join(middle) + "::" + rest)).None?
  {
    JoinSingle(head);
    JoinSingle(middle);
    if head != [] { JoinNotEmpty(head); }
    if middle != [] { JoinNotEmpty(middle); }
    HalvesFront(Join(head), Join(middle) + "::" + rest);
    HalvesFront(Join(middle), rest);
  }

  /** The parser's last part: it takes groups of up to four hexadecimal digits, eight of
      them or up to eight around one "::", and nothing else. */
  lemma CoreParsesIff(head: seq<string>, gap: bool, tail: seq<string>)
    requires forall k :: 0 <= k < |head| ==> IsPart(head[k])
    requires forall k :: 0 <= k < |tail| ==> IsPart(tail[k])
    requires gap || tail == []
    ensures GroupsOf(Core(head, gap, tail)).Some? <==>
      AllGroups(head) && AllGroups(tail) && if gap then |head| + |tail| <= 8 else |head| == 8
  {
    HalvesOfCore(head, gap, tail);
    PartsOfJoin(head);
    PartsOfJoin(tail);
    var missing := 8 - |head| - |tail|;
    if missing >= 0 {
      AllGroupsSum(head, Zeros(missing));
      AllGroupsSum(head + Zeros(missing), tail);
      if !gap && missing == 0 { assert head + Zeros(0) + [] == head; }
    }
  }

  lemma AllGroupsSum(a: seq<string>, b: seq<string>)
    ensures AllGroups(a + b) <==> AllGroups(a) && AllGroups(b)
  {
    if AllGroups(a + b) {
      forall k | 0 <= k < |a| ensures IsGroup(a[k]) {
        assert (a + b)[k] == a[k];
      }
      forall k | 0 <= k < |b| ensures IsGroup(b[k]) {
        assert (a + b)[|a| + k] == b[k];
      }
    }
  }

  lemma CoreParses(head: seq<string>, gap: bool, tail: seq<string>)
    requires forall k :: 0 <= k < |head| ==> IsGroup(head[k])
    requires forall k :: 0 <= k < |tail| ==> IsGroup(tail[k])
    requires if gap then |head| + |tail| <= 8 else |head| == 8 && tail == []
    ensures GroupsOf(Core(head, gap, tail)) == Some(StripAll(head + Zeros(8 - |head| - |tail|) + tail))
  {
    HalvesOfCore(head, gap, tail);
    PartsOfJoin(head);
    PartsOfJoin(tail);
    var groups := head + Zeros(8 - |head| - |tail|) + tail;
    forall k | 0 <= k < |groups| ensures IsGroup(groups[k]) {
      if |head| <= k < 8 - |tail| { assert groups[k] == "0"; }
    }
  }

  // --- An IPv4 tail -----------------------------------------------------------------------------------

  /** `t` stands in `s` at index k. */
  ghost predicate At(s: string, k: nat, t: string) {
    k + |t| <= |s| && forall i :: 0 <= i < |t| ==> s[k + i] == t[i]
  }

  lemma {:induction false} DigitsAt(s: string, lo: nat, hi: nat)
    requires lo <= hi <= |s| && (forall i :: lo <= i < hi ==> Digit(s[i])) && (lo > 0 ==> !Digit(s[lo - 1]))
    ensures DigitsBefore(s, hi) == hi - lo
    decreases hi
  {
    if lo != hi { DigitsAt(s, lo, hi - 1); }
  }

  lemma {:induction false} NumberAt(s: string, k: nat, t: string)
    requires At(s, k, t) && forall i :: 0 <= i < |t| ==> Digit(t[i])
    ensures NumberIn(s, k, k + |t|) == Decimal(t)
    decreases |t|
  {
    if t != [] {
      var n := |t| - 1;
      NumberAt(s, k, t[..n]);
      assert s[k + n] == t[n];
    }
  }

  lemma {:induction false} OctetAt(s: string, k: nat, t: string)
    requires OctetText(t) && At(s, k, t) && k > 0 && s[k - 1] == '.'
    ensures OctetBefore(s, k + |t|) == Some(k) && NumberIn(s, k, k + |t|) == Decimal(t)
  {
    forall i | k <= i < k + |t| ensures Digit(s[i]) { assert s[k + (i - k)] == t[i - k]; }
    DigitsAt(s, k, k + |t|);
    NumberAt(s, k, t);
  }

  lemma {:induction false} PairHex(a: nat, b: nat)
    requires a < 256 && b < 256
    ensures Pair(a, b) == Hex(a * 256 + b)
    ensures IsGroup(Hex(a * 256 + b)) && StripZeros(Hex(a * 256 + b)) == Hex(a * 256 + b)
  {
    assert TwoTo(8) == 256 by { assert TwoTo(4) == 16; }
    BitsEnough(a * 256 + b);
    OrDisjoint(a, b, 8, a * 256 + b);
    HexGroup(a * 256 + b);
  }

  /** A 16-bit number in base 16 is a group, without leading zeros. */
  lemma {:induction false} HexGroup(n: nat)
    requires n < 0x1_0000
    ensures IsGroup(Hex(n)) && StripZeros(Hex(n)) == Hex(n)
  {
    HexRoundTrip(n);
    assert SixteenTo(4) == 65536 by { assert SixteenTo(2) == 256; }
    HexLength(n, 4);
    Stripped(Hex(n));
  }

  lemma Shift(a: string, b: string, c: string, d: string)
    ensures a + (b + c + d) == (a + b) + c + d
  {
  }

  /** Where the octets of `q` stand in a text that ends with it. */
  function PlacesOf(stem: nat, q: Quad): Places {
    Places(stem, stem + |q.a| + 1, stem + |q.a| + |q.b| + 2, stem + |q.a| + |q.b| + |q.c| + 3)
  }

  ghost predicate EndsWith(s: string, q: Quad, p: Places) {
    && At(s, p.a, q.a) && At(s, p.b, q.b) && At(s, p.c, q.c) && At(s, p.d, q.d)
    && 0 < p.a && p.b == p.a + |q.a| + 1 && p.c == p.b + |q.b| + 1 && p.d == p.c + |q.c| + 1 && |s| == p.d + |q.d|
    && s[p.a - 1] == ':' && s[p.b - 1] == s[p.c - 1] == s[p.d - 1] == '.'
  }

  lemma StartsAt(s: string, q: Quad, p: Places)
    requires QuadText(q) && EndsWith(s, q, p)
    ensures OctetStarts(s) == Some(p)
  {
    OctetAt(s, p.d, q.d);
    OctetAt(s, p.c, q.c);
    OctetAt(s, p.b, q.b);
    forall i | p.a <= i < p.b - 1 ensures Digit(s[i]) { assert s[p.a + (i - p.a)] == q.a[i - p.a]; }
    DigitsAt(s, p.a, p.b - 1);
    StartsFrom(s, p);
  }

  lemma {:induction false} StartsFrom(s: string, p: Places)
    requires 0 <= p.a < p.b - 1 && p.b < p.c < p.d <= |s|
    requires OctetBefore(s, |s|) == Some(p.d) && OctetBefore(s, p.d - 1) == Some(p.c)
    requires OctetBefore(s, p.c - 1) == Some(p.b)
    requires DigitsBefore(s, p.b - 1) == p.b - 1 - p.a <= 3
    ensures OctetStarts(s) == Some(p)
  {
  }

  lemma {:induction false} OctetNumber(s: string, lo: nat, hi: nat, t: string)
    requires OctetText(t) && At(s, lo, t) && hi == lo + |t|
    ensures hi <= |s| && NumberIn(s, lo, hi) == Decimal(t)
  {
    NumberAt(s, lo, t);
  }

  lemma {:induction false} NumbersAt(s: string, q: Quad, p: Places)
    requires QuadText(q) && EndsWith(s, q, p)
    ensures NumberIn(s, p.a, p.b - 1) == Decimal(q.a) && NumberIn(s, p.b, p.c - 1) == Decimal(q.b)
    ensures NumberIn(s, p.c, p.d - 1) == Decimal(q.c) && NumberIn(s, p.d, |s|) == Decimal(q.d)
  {
    OctetNumber(s, p.a, p.b - 1, q.a);
    OctetNumber(s, p.b, p.c - 1, q.b);
    OctetNumber(s, p.c, p.d - 1, q.c);
    OctetNumber(s, p.d, |s|, q.d);
  }

  lemma RegroupedAt(s: string, q: Quad, p: Places, group: (nat, nat) -> string)
    requires QuadText(q) && EndsWith(s, q, p)
    ensures Regrouped(s, p, group) ==
      s[..p.a] + group(Decimal(q.a), Decimal(q.b)) + ":" + group(Decimal(q.c), Decimal(q.d))
  {
    NumbersAt(s, q, p);
  }

  lemma V4At(s: string, q: Quad, p: Places, group: (nat, nat) -> string)
    requires QuadText(q) && EndsWith(s, q, p)
    ensures WithoutV4(s, group) ==
      s[..p.a] + group(Decimal(q.a), Decimal(q.b)) + ":" + group(Decimal(q.c), Decimal(q.d))
  {
    StartsAt(s, q, p);
    RegroupedAt(s, q, p, group);
  }

  lemma DottedEnds(stem: string, q: Quad)
    requires stem != [] && stem[|stem| - 1] == ':'
    ensures EndsWith(stem + Dotted(q), q, PlacesOf(|stem|, q)) && (stem + Dotted(q))[..|stem|] == stem
  {
  }

  lemma {:induction false} DigitsBeforeAre(s: string, k: nat)
    requires k <= |s|
    ensures
      var n := DigitsBefore(s, k);
      (forall i :: k - n <= i < k ==> Digit(s[i])) && (n < k ==> !Digit(s[k - n - 1]))
  {
    if k > 0 && Digit(s[k - 1]) { DigitsBeforeAre(s, k - 1); }
  }

  /** One to three digits. */
  predicate OctetIn(s: string, lo: int, hi: int) {
    0 <= lo && hi <= |s| && 1 <= hi - lo <= 3 && forall i :: lo <= i < hi ==> Digit(s[i])
  }

  /** Four of them at the end of the text with dots between, the first as long as it can be. */
  predicate QuadAt(s: string, p: Places) {
    && 0 < p.b <= p.c <= p.d <= |s| && s[p.b - 1] == s[p.c - 1] == s[p.d - 1] == '.'
    && OctetIn(s, p.a, p.b - 1) && OctetIn(s, p.b, p.c - 1) && OctetIn(s, p.c, p.d - 1) && OctetIn(s, p.d, |s|)
    && (p.a == 0 || p.b - 1 - p.a == 3 || !Digit(s[p.a - 1]))
  }

  lemma OctetBeforeIff(s: string, start: nat, k: nat)
    requires 0 < start <= k <= |s|
    ensures OctetBefore(s, k) == Some(start) <==> s[start - 1] == '.' && OctetIn(s, start, k)
  {
    DigitsBeforeAre(s, k);
    if s[start - 1] == '.' && OctetIn(s, start, k) { DigitsAt(s, start, k); }
  }

  /** The IPv4 tail found is such a one, and such a one is found. */
  lemma OctetStartsIff(s: string, p: Places)
    ensures OctetStarts(s) == Some(p) <==> QuadAt(s, p)
  {
    if OctetStarts(s) == Some(p) { StartsAreQuad(s, p); }
    if QuadAt(s, p) {
      OctetBeforeIff(s, p.d, |s|);
      OctetBeforeIff(s, p.c, p.d - 1);
      OctetBeforeIff(s, p.b, p.c - 1);
      FirstOctet(s, p.a, p.b - 1);
    }
  }

  lemma StartsAreQuad(s: string, p: Places)
    requires OctetStarts(s) == Some(p)
    ensures QuadAt(s, p)
  {
    OctetBeforeIff(s, p.d, |s|);
    OctetBeforeIff(s, p.c, p.d - 1);
    OctetBeforeIff(s, p.b, p.c - 1);
    DigitsBeforeAre(s, p.b - 1);
  }

  lemma {:induction false} FirstOctet(s: string, lo: nat, hi: nat)
    requires hi <= |s| && OctetIn(s, lo, hi) && (lo == 0 || hi - lo == 3 || !Digit(s[lo - 1]))
    ensures Min(DigitsBefore(s, hi), 3) == hi - lo
  {
    DigitsBeforeAre(s, hi);
    var n := DigitsBefore(s, hi);
    assert n < hi ==> !Digit(s[hi - n - 1]);
    if lo > 0 && hi - lo < 3 { DigitsAt(s, lo, hi); }
  }

  lemma QuadReplaced(stem: string, q: Quad, group: (nat, nat) -> string)
    requires QuadText(q) && stem != [] && stem[|stem| - 1] == ':'
    ensures WithoutV4(stem + Dotted(q), group) ==
      stem + group(Decimal(q.a), Decimal(q.b)) + ":" + group(Decimal(q.c), Decimal(q.d))
  {
    DottedEnds(stem, q);
    V4At(stem + Dotted(q), q, PlacesOf(|stem|, q), group);
  }

  lemma NoDots(s: string, group: (nat, nat) -> string)
    requires Free(s, '.')
    ensures WithoutV4(s, group) == s
  {
  }

  // --- What comes last -----------------------------------------------------------------------------------

  /** Everything before the last item of the address. */
  function Stem(head: seq<string>, gap: bool, tail: seq<string>): string {
    if gap then Join(head) + "::" + JoinStem(tail) else JoinStem(head)
  }

  function JoinStem(l: seq<string>): string {
    if l == [] then [] else Join(l) + ":"
  }

  lemma {:induction false} JoinLast(l: seq<string>, x: string)
    ensures Join(l + [x]) == JoinStem(l) + x
  {
    assert (l + [x])[..|l|] == l;
  }

  lemma EndingOne(head: seq<string>, gap: bool, tail: seq<string>, x: string)
    ensures EndingOf(head, gap, tail, [x]) == Stem(head, gap, tail) + x
  {
    JoinLast(head, x);
    JoinLast(tail, x);
    if gap { assert Join(head) + "::" + (JoinStem(tail) + x) == Join(head) + "::" + JoinStem(tail) + x; }
  }

  lemma {:induction false} JoinTwo(l: seq<string>, x: string, y: string)
    ensures Join(l + [x, y]) == JoinStem(l) + x + ":" + y
  {
    assert l + [x, y] == l + [x] + [y];
    JoinLast(l, x);
    JoinLast(l + [x], y);
  }

  lemma EndingTwo(head: seq<string>, gap: bool, tail: seq<string>, x: string, y: string)
    ensures EndingOf(head, gap, tail, [x, y]) == Stem(head, gap, tail) + x + ":" + y
  {
    JoinTwo(head, x, y);
    JoinTwo(tail, x, y);
    if gap {
      Shift(Join(head) + "::", JoinStem(tail) + x, ":", y);
      assert Join(head) + "::" + (JoinStem(tail) + x) == Join(head) + "::" + JoinStem(tail) + x;
    }
  }

  // --- Letter case ------------------------------------------------------------------------------------------

  function LowerEach(l: seq<string>): (r: seq<string>)
    ensures |r| == |l| && forall k :: 0 <= k < |l| ==> r[k] == LowerAll(l[k])
  {
    seq(|l|, k requires 0 <= k < |l| => LowerAll(l[k]))
  }

  lemma LowerSum(a: string, b: string)
    ensures LowerAll(a + b) == LowerAll(a) + LowerAll(b)
  {
  }

  lemma {:induction false} LowerJoin(l: seq<string>)
    ensures LowerAll(Join(l)) == Join(LowerEach(l))
  {
    if |l| > 1 {
      var n := |l| - 1;
      LowerJoin(l[..n]);
      LowerSum(Join(l[..n]) + ":", l[n]);
      LowerSum(Join(l[..n]), ":");
      assert LowerEach(l)[..n] == LowerEach(l[..n]);
      assert LowerAll(":") == ":";
    }
  }

  lemma LowerCore(head: seq<string>, gap: bool, tail: seq<string>)
    ensures LowerAll(Core(head, gap, tail)) == Core(LowerEach(head), gap, LowerEach(tail))
  {
    LowerJoin(head);
    LowerJoin(tail);
    if gap {
      LowerSum(Join(head) + "::", Join(tail));
      LowerSum(Join(head), "::");
      assert LowerAll("::") == "::";
    }
  }

  lemma LowerDotted(q: Quad)
    requires QuadText(q)
    ensures LowerAll(Dotted(q)) == Dotted(q)
  {
    var t := Dotted(q);
    forall k | 0 <= k < |t| ensures Lower(t[k]) == t[k] {
      assert t[k] == '.' || Digit(t[k]);
    }
  }

  lemma LowerEachSum(l: seq<string>, m: seq<string>)
    ensures LowerEach(l + m) == LowerEach(l) + LowerEach(m)
  {
  }

  /** In lower case the address is the one of the lower-case groups. */
  lemma LowerAddress(s: Spelling)
    requires WellFormed(s)
    ensures LowerAll(Address(s)) ==
      EndingOf(LowerEach(s.head), s.gap, LowerEach(s.tail), if s.quad.Some? then [Dotted(s.quad.value)] else [])
  {
    var more := if s.quad.Some? then [Dotted(s.quad.value)] else [];
    if s.quad.Some? { LowerDotted(s.quad.value); }
    assert LowerEach(more) == more;
    LowerEachSum(s.head, more);
    LowerEachSum(s.tail, more);
    if s.gap { LowerCore(s.head, true, s.tail + more); } else { LowerCore(s.head + more, false, []); }
  }

  // --- What surrounds an address -----------------------------------------------------------------------------

  predicate Plain(c: char) { IsHex(Lower(c)) || c == ':' || c == '.' }

  predicate PlainText(t: string) { forall k :: 0 <= k < |t| ==> Plain(t[k]) }

  ghost predicate AllPlain(l: seq<string>) {
    forall k :: 0 <= k < |l| ==> PlainText(l[k])
  }

  lemma {:induction false} JoinPlain(l: seq<string>)
    requires AllPlain(l)
    ensures PlainText(Join(l))
  {
    if |l| > 1 { JoinPlain(l[..|l| - 1]); }
  }

  lemma AllPlainSum(a: seq<string>, b: seq<string>)
    requires AllPlain(a) && AllPlain(b)
    ensures AllPlain(a + b)
  {
  }

  lemma GroupsPlain(l: seq<string>)
    requires forall k :: 0 <= k < |l| ==> GroupText(l[k])
    ensures AllPlain(l)
  {
    forall k | 0 <= k < |l| ensures PlainText(l[k]) { assert GroupText(l[k]); }
  }

  lemma DottedPlain(q: Quad)
    requires QuadText(q)
    ensures PlainText(Dotted(q))
  {
  }

  lemma CorePlain(head: seq<string>, gap: bool, tail: seq<string>)
    requires AllPlain(head) && AllPlain(tail)
    ensures PlainText(Core(head, gap, tail))
  {
    JoinPlain(head);
    JoinPlain(tail);
  }

  lemma AddressPlain(s: Spelling)
    requires WellFormed(s)
    ensures PlainText(Address(s))
  {
    var more := if s.quad.Some? then [Dotted(s.quad.value)] else [];
    if s.quad.Some? { DottedPlain(s.quad.value); }
    GroupsPlain(s.head);
    GroupsPlain(s.tail);
    AllPlainSum(s.head, more);
    AllPlainSum(s.tail, more);
    if s.gap { CorePlain(s.head, true, s.tail + more); } else { CorePlain(s.head + more, false, []); }
  }

  /** Two groups at least, or "::": there is a colon. */
  lemma AddressHasColon(s: Spelling)
    requires WellFormed(s)
    ensures ':' in Address(s)
  {
    if s.gap {
      var a := Join(s.head);
      assert Address(s)[|a|] == ':';
    } else {
      var l := s.head + if s.quad.Some? then [Dotted(s.quad.value)] else [];
      assert |l| > 1;
      var a := Join(l[..|l| - 1]);
      assert Address(s)[|a|] == ':';
    }
  }

  lemma {:induction false} TrimStartOf(spaces: string, t: string)
    requires Spaces(spaces) && (t != [] ==> !Space(t[0]))
    ensures TrimStart(spaces + t) == t
  {
    if spaces == [] {
      assert spaces + t == t;
    } else {
      assert (spaces + t)[1..] == spaces[1..] + t;
      TrimStartOf(spaces[1..], t);
    }
  }

  lemma {:induction false} TrimEndOf(t: string, spaces: string)
    requires Spaces(spaces) && (t != [] ==> !Space(t[|t| - 1]))
    ensures TrimEnd(t + spaces) == t
  {
    if spaces == [] {
      assert t + spaces == t;
    } else {
      var n := |spaces| - 1;
      assert (t + spaces)[..|t + spaces| - 1] == t + spaces[..n];
      TrimEndOf(t, spaces[..n]);
    }
  }

  lemma {:induction false} BeforeOf(t: string, rest: string)
    requires Free(t, '%') && (rest != [] ==> rest[0] == '%')
    ensures Before(t + rest, '%') == t
  {
    if t == [] {
      assert t + rest == rest;
    } else {
      assert (t + rest)[1..] == t[1..] + rest;
      BeforeOf(t[1..], rest);
    }
  }

  /** The text without the spaces around it. */
  function Inner(s: Spelling): string {
    Wrapped(Address(s), Zone(s), s.brackets)
  }

  lemma WrappedEnds(a: string, z: string, brackets: bool)
    requires a != [] && Plain(a[0]) && Plain(a[|a| - 1]) && (z != [] ==> !Space(z[|z| - 1]))
    ensures
      var x := Wrapped(a, z, brackets);
      x != [] && !Space(x[0]) && !Space(x[|x| - 1])
  {
    var x := Wrapped(a, z, brackets);
    if !brackets {
      assert x == a + z;
      assert x[0] == a[0] && x[|x| - 1] == if z == [] then a[|a| - 1] else z[|z| - 1];
    }
  }

  lemma ZoneEnds(s: Spelling)
    requires WellFormed(s)
    ensures Zone(s) != [] ==> Zone(s)[0] == '%' && !Space(Zone(s)[|Zone(s)| - 1])
  {
  }

  lemma InnerEnds(s: Spelling)
    requires WellFormed(s)
    ensures Inner(s) != [] && !Space(Inner(s)[0]) && !Space(Inner(s)[|Inner(s)| - 1])
  {
    AddressPlain(s);
    AddressHasColon(s);
    ZoneEnds(s);
    WrappedEnds(Address(s), Zone(s), s.brackets);
  }

  lemma Trimmed(s: Spelling)
    requires WellFormed(s)
    ensures TrimEnd(TrimStart(Render(s))) == Inner(s)
  {
    var x := Inner(s);
    InnerEnds(s);
    assert Render(s) == s.before + (x + s.after);
    assert (x + s.after)[0] == x[0];
    TrimStartOf(s.before, x + s.after);
    TrimEndOf(x, s.after);
  }

  lemma Bracketed(a: string, z: string)
    requires Free(a, '%') && (z != [] ==> z[0] == '%')
    ensures Before(Unbracket("[" + a + z + "]"), '%') == a
  {
    var t := "[" + a + z + "]";
    assert t[1..] == a + z + "]";
    assert (a + z + "]")[..|a + z|] == a + z;
    BeforeOf(a, z);
  }

  lemma Unbracketed(a: string, z: string)
    requires Free(a, '%') && (z != [] ==> z[0] == '%') && a != [] && a[0] != '[' && a[|a| - 1] != ']'
    ensures Before(Unbracket(a + z), '%') == a
  {
    var t := a + z;
    assert t[0] == a[0];
    if z != [] && z[|z| - 1] == ']' {
      assert Unbracket(t) == t[..|t| - 1] == a + z[..|z| - 1];
      BeforeOf(a, z[..|z| - 1]);
    } else {
      assert t[|t| - 1] == if z == [] then a[|a| - 1] else z[|z| - 1];
      BeforeOf(a, z);
    }
  }

  /** Brackets and a zone leave the address. */
  lemma Unwrapped(s: Spelling)
    requires WellFormed(s)
    ensures Before(Unbracket(LowerAll(Inner(s))), '%') == LowerAll(Address(s))
  {
    AddressPlain(s);
    AddressHasColon(s);
    var a, z := LowerAll(Address(s)), LowerAll(Zone(s));
    LowerSum(Address(s), Zone(s));
    if s.brackets {
      LowerBracketed(Address(s), Zone(s));
      Bracketed(a, z);
    } else {
      assert Inner(s) == Address(s) + Zone(s);
      Unbracketed(a, z);
    }
  }

  lemma LowerBracketed(address: string, zone: string)
    ensures LowerAll("[" + address + zone + "]") == "[" + LowerAll(address) + LowerAll(zone) + "]"
  {
    LowerSum("[" + address + zone, "]");
    LowerSum("[" + address, zone);
    LowerSum("[", address);
    assert LowerAll("[") == "[" && LowerAll("]") == "]";
  }

  // --- Every spelling parses alike ----------------------------------------------------------------------------

  /** The text of the groups that end the address, an IPv4 tail as two of them. */
  function HexTail(q: Option<Quad>): seq<string> {
    if q.None? then []
    else [Pair(Decimal(q.value.a), Decimal(q.value.b)), Pair(Decimal(q.value.c), Decimal(q.value.d))]
  }

  lemma {:induction false} JoinFree(l: seq<string>, c: char)
    requires c != ':' && forall k :: 0 <= k < |l| ==> Free(l[k], c)
    ensures Free(Join(l), c)
  {
    if |l| > 1 { JoinFree(l[..|l| - 1], c); }
  }

  lemma LowerGroups(l: seq<string>)
    requires GroupTexts(l)
    ensures forall k :: 0 <= k < |l| ==> IsGroup(LowerEach(l)[k]) && Free(LowerEach(l)[k], '.')
  {
    forall k | 0 <= k < |l| ensures IsGroup(LowerEach(l)[k]) && Free(LowerEach(l)[k], '.') {
      assert GroupText(l[k]);
    }
  }

  /** In lower case, with the IPv4 tail in base 16. */
  lemma Regroups(s: Spelling)
    requires WellFormed(s)
    ensures WithoutV4(LowerAll(Address(s)), Pair) ==
      EndingOf(LowerEach(s.head), s.gap, LowerEach(s.tail), HexTail(s.quad))
  {
    LowerAddress(s);
    var head, tail := LowerEach(s.head), LowerEach(s.tail);
    if s.quad.Some? {
      EndingOne(head, s.gap, tail, Dotted(s.quad.value));
      EndingTwo(head, s.gap, tail, HexTail(s.quad)[0], HexTail(s.quad)[1]);
      StemEnds(head, s.gap, tail);
      QuadReplaced(Stem(head, s.gap, tail), s.quad.value, Pair);
    } else {
      LowerGroups(s.head);
      LowerGroups(s.tail);
      assert head + [] == head && tail + [] == tail;
      JoinFree(head, '.');
      JoinFree(tail, '.');
      NoDots(Core(head, s.gap, tail), Pair);
    }
  }

  lemma StemEnds(head: seq<string>, gap: bool, tail: seq<string>)
    requires gap || head != []
    ensures Stem(head, gap, tail) != [] && Stem(head, gap, tail)[|Stem(head, gap, tail)| - 1] == ':'
  {
  }

  /** The eight groups of an address, with zeros for "::". */
  function Gathered(head: seq<string>, gap: bool, tail: seq<string>, more: seq<string>): seq<string>
    requires |head| + |tail| + |more| <= 8
  {
    head + Zeros(if gap then 8 - |head| - |tail| - |more| else 0) + (tail + more)
  }

  /** The groups of a spelling before their leading zeros are dropped. */
  function Full(s: Spelling): seq<string>
    requires WellFormed(s)
  {
    Gathered(LowerEach(s.head), s.gap, LowerEach(s.tail), HexTail(s.quad))
  }

  lemma HexTailGroups(q: Option<Quad>)
    requires q.Some? ==> QuadText(q.value)
    ensures forall k :: 0 <= k < |HexTail(q)| ==> IsGroup(HexTail(q)[k])
    ensures StripAll(HexTail(q)) == HexAll(QuadValues(q))
  {
    if q.Some? {
      PairHex(Decimal(q.value.a), Decimal(q.value.b));
      PairHex(Decimal(q.value.c), Decimal(q.value.d));
    }
  }

  lemma RenderHasColon(s: Spelling)
    requires WellFormed(s)
    ensures ':' in Render(s)
  {
    AddressHasColon(s);
    var k :| 0 <= k < |Address(s)| && Address(s)[k] == ':';
    assert Wrapped(Address(s), Zone(s), s.brackets)[(if s.brackets then 1 else 0) + k] == ':';
    assert Render(s)[|s.before| + (if s.brackets then 1 else 0) + k] == ':';
  }

  /** What surrounds the address goes. */
  lemma Cleaned(s: Spelling)
    requires WellFormed(s)
    ensures Groups(Render(s)) == GroupsOf(WithoutV4(LowerAll(Address(s)), Pair))
  {
    RenderHasColon(s);
    Trimmed(s);
    Unwrapped(s);
  }

  lemma AddressParses(head: seq<string>, gap: bool, tail: seq<string>, more: seq<string>)
    requires forall k :: 0 <= k < |head| ==> IsGroup(head[k])
    requires forall k :: 0 <= k < |tail| ==> IsGroup(tail[k])
    requires forall k :: 0 <= k < |more| ==> IsGroup(more[k])
    requires if gap then |head| + |tail| + |more| <= 8 else |head| + |more| == 8 && tail == []
    ensures GroupsOf(EndingOf(head, gap, tail, more)) == Some(StripAll(Gathered(head, gap, tail, more)))
  {
    if gap {
      GroupsSum(tail, more);
      CoreParses(head, true, tail + more);
      assert 8 - |head| - |tail + more| == 8 - |head| - |tail| - |more|;
    } else {
      GroupsSum(head, more);
      CoreParses(head + more, false, []);
      assert head + more + Zeros(0) + [] == Gathered(head, false, tail, more);
    }
  }

  lemma GroupsSum(a: seq<string>, b: seq<string>)
    requires forall k :: 0 <= k < |a| ==> IsGroup(a[k])
    requires forall k :: 0 <= k < |b| ==> IsGroup(b[k])
    ensures forall k :: 0 <= k < |a + b| ==> IsGroup((a + b)[k])
  {
  }

  lemma RegroupedParses(s: Spelling)
    requires WellFormed(s)
    ensures GroupsOf(EndingOf(LowerEach(s.head), s.gap, LowerEach(s.tail), HexTail(s.quad))) == Some(StripAll(Full(s)))
  {
    LowerGroups(s.head);
    LowerGroups(s.tail);
    HexTailGroups(s.quad);
    AddressParses(LowerEach(s.head), s.gap, LowerEach(s.tail), HexTail(s.quad));
  }

  lemma SpellingGroups(s: Spelling)
    requires WellFormed(s)
    ensures Groups(Render(s)) == Some(StripAll(Full(s)))
  {
    Cleaned(s);
    Regroups(s);
    RegroupedParses(s);
  }

  lemma StripSum(a: seq<string>, b: seq<string>)
    ensures StripAll(a + b) == StripAll(a) + StripAll(b)
  {
  }

  lemma HexSum(a: seq<nat>, b: seq<nat>)
    ensures HexAll(a + b) == HexAll(a) + HexAll(b)
  {
  }

  lemma StripGroups(l: seq<string>)
    requires GroupTexts(l)
    ensures StripAll(LowerEach(l)) == HexAll(Values(l))
  {
    LowerGroups(l);
    forall k | 0 <= k < |l| ensures StripZeros(LowerEach(l)[k]) == Hex(Values(l)[k]) {
      Stripped(LowerEach(l)[k]);
      NumberOfLower(l[k]);
    }
  }

  lemma StripGathered(head: seq<string>, gap: bool, tail: seq<string>, more: seq<string>)
    requires |head| + |tail| + |more| <= 8
    ensures StripAll(Gathered(head, gap, tail, more)) ==
      StripAll(head) + StripAll(Zeros(if gap then 8 - |head| - |tail| - |more| else 0)) +
        (StripAll(tail) + StripAll(more))
  {
    var zeros := Zeros(if gap then 8 - |head| - |tail| - |more| else 0);
    StripSum(head + zeros, tail + more);
    StripSum(head, zeros);
    StripSum(tail, more);
  }

  lemma HexMeaning(s: Spelling)
    requires WellFormed(s)
    ensures HexAll(Meaning(s)) ==
      HexAll(Values(s.head)) + HexAll(Nothing(8 - Written(s))) + (HexAll(Values(s.tail)) + HexAll(QuadValues(s.quad)))
  {
    var a, b, c, d := Values(s.head), Nothing(8 - Written(s)), Values(s.tail), QuadValues(s.quad);
    assert a + b + c + d == a + b + (c + d);
    HexSum(a + b, c + d);
    HexSum(a, b);
    HexSum(c, d);
  }

  lemma StripFull(s: Spelling)
    requires WellFormed(s)
    ensures StripAll(Full(s)) == HexAll(Meaning(s))
  {
    var head, tail, more := LowerEach(s.head), LowerEach(s.tail), HexTail(s.quad);
    var n := if s.gap then 8 - |head| - |tail| - |more| else 0;
    assert n == 8 - Written(s);
    StripGathered(head, s.gap, tail, more);
    StripGroups(s.head);
    StripGroups(s.tail);
    HexTailGroups(s.quad);
    ZerosStripped(n);
    assert StripAll(Full(s)) == StripAll(head) + StripAll(Zeros(n)) + (StripAll(tail) + StripAll(more));
    HexMeaning(s);
  }

  lemma ZerosStripped(n: nat)
    ensures StripAll(Zeros(n)) == HexAll(Nothing(n))
  {
  }

  /** Every spelling of an address parses to its eight groups in base 16: whatever
      "::" stands for, however many leading zeros, in either case, with brackets, a
      zone or an IPv4 tail. */
  lemma SpellingParses(s: Spelling)
    requires WellFormed(s)
    ensures |Meaning(s)| == 8
    ensures Groups(Render(s)) == Some(HexAll(Meaning(s)))
  {
    SpellingGroups(s);
    StripFull(s);
  }

  lemma {:induction false} HexBelow(s: string, k: nat)
    requires k <= |s|
    ensures HexUpTo(s, k) < SixteenTo(k)
  {
    if k > 0 { HexBelow(s, k - 1); }
  }

  lemma ValuesOf(written: seq<string>) returns (groups: seq<nat>)
    requires AllGroups(written)
    ensures |groups| == |written| && StripAll(written) == HexAll(groups)
    ensures forall k :: 0 <= k < |groups| ==> groups[k] < 0x1_0000
  {
    groups := seq(|written|, k requires 0 <= k < |written| => HexValue(written[k]));
    forall k | 0 <= k < |written| ensures StripZeros(written[k]) == Hex(groups[k]) && groups[k] < 0x1_0000 {
      assert IsGroup(written[k]);
      Stripped(written[k]);
      HexBelow(written[k], |written[k]|);
      SixteenToFour(|written[k]|);
    }
  }

  /** Whatever parses has a colon, and is eight groups in base 16: no IPv4 address has
      a key, and no key has another form. */
  lemma ParsedGroups(address: string) returns (groups: seq<nat>)
    requires Groups(address).Some?
    ensures ':' in address && |groups| == 8 && Groups(address) == Some(HexAll(groups))
    ensures forall k :: 0 <= k < 8 ==> groups[k] < 0x1_0000
    ensures forall n :: 0 <= n <= 8 ==> Prefix(address, n) == Some(Join(HexAll(groups[..n])))
  {
    var written := GroupsParsed(WithoutV4(Before(Unbracket(LowerAll(TrimEnd(TrimStart(address)))), '%'), Pair));
    groups := ValuesOf(written);
    forall n | 0 <= n <= 8 ensures Prefix(address, n) == Some(Join(HexAll(groups[..n]))) {
      PrefixIs(address, groups, n);
    }
  }

  lemma {:induction false} SixteenToFour(k: nat)
    requires k <= 4
    ensures SixteenTo(k) <= 0x1_0000
  {
    assert SixteenTo(1) == 16 && SixteenTo(2) == 256;
  }

  lemma GroupsParsed(text: string) returns (written: seq<string>)
    requires GroupsOf(text).Some?
    ensures |written| == 8 && AllGroups(written) && GroupsOf(text) == Some(StripAll(written))
  {
    var halves := Halves(text);
    var head := Parts(halves[0]);
    var tail := if |halves| == 2 then Parts(halves[1]) else [];
    written := head + Zeros(if |halves| == 2 then 8 - |head| - |tail| else 0) + tail;
  }

  /** Without a key, the address has no group either. */
  lemma NoKey(address: string, n: nat)
    requires n <= 8
    ensures Prefix(address, n).None? <==> Groups(address).None?
    ensures ':' !in address ==> Prefix(address, n).None?
  {
    if Groups(address).Some? { var groups := ParsedGroups(address); }
  }

  lemma HexJoinInjective(a: seq<nat>, b: seq<nat>)
    requires |a| == |b|
    ensures Join(HexAll(a)) == Join(HexAll(b)) <==> a == b
  {
    if a != [] && Join(HexAll(a)) == Join(HexAll(b)) {
      HexFree(a);
      HexFree(b);
      SplitJoin(HexAll(a));
      SplitJoin(HexAll(b));
      forall k | 0 <= k < |a| ensures a[k] == b[k] {
        HexRoundTrip(a[k]);
        HexRoundTrip(b[k]);
        assert HexAll(a)[k] == HexAll(b)[k];
      }
    }
  }

  lemma HexFree(l: seq<nat>)
    ensures forall k :: 0 <= k < |l| ==> Free(HexAll(l)[k], ':')
  {
    forall k | 0 <= k < |l| ensures Free(HexAll(l)[k], ':') {
      HexRoundTrip(l[k]);
    }
  }

  lemma PrefixIs(address: string, groups: seq<nat>, n: nat)
    requires Groups(address) == Some(HexAll(groups)) && n <= 8 <= |groups|
    ensures Prefix(address, n) == Some(Join(HexAll(groups[..n])))
  {
    assert HexAll(groups)[..n] == HexAll(groups[..n]);
  }

  lemma PrefixOf(s: Spelling, n: nat)
    requires WellFormed(s) && n <= 8
    ensures |Meaning(s)| == 8 && Prefix(Render(s), n) == Some(Join(HexAll(Meaning(s)[..n])))
  {
    SpellingParses(s);
    PrefixIs(Render(s), Meaning(s), n);
  }

  /** Two spellings share a key of n groups exactly when they are of addresses with the
      same first n groups. */
  lemma SameKeyIff(s: Spelling, t: Spelling, n: nat)
    requires WellFormed(s) && WellFormed(t) && n <= 8
    ensures |Meaning(s)| == |Meaning(t)| == 8
    ensures Prefix(Render(s), n).Some?
    ensures Prefix(Render(s), n) == Prefix(Render(t), n) <==> Meaning(s)[..n] == Meaning(t)[..n]
  {
    PrefixOf(s, n);
    PrefixOf(t, n);
    HexJoinInjective(Meaning(s)[..n], Meaning(t)[..n]);
  }

  /** The number that the first n groups make, 16 bits each. */
  function Leading(groups: seq<nat>, n: nat): nat
    requires n <= |groups|
  {
    if n == 0 then 0 else Leading(groups, n - 1) * 0x1_0000 + groups[n - 1]
  }

  lemma {:induction false} SameLeadingIff(a: seq<nat>, b: seq<nat>, n: nat)
    requires n <= |a| && n <= |b|
    requires forall i :: 0 <= i < n ==> a[i] < 0x1_0000 && b[i] < 0x1_0000
    ensures Leading(a, n) == Leading(b, n) <==> a[..n] == b[..n]
  {
    if n > 0 {
      SameLeadingIff(a, b, n - 1);
      assert a[..n] == a[..n - 1] + [a[n - 1]] && b[..n] == b[..n - 1] + [b[n - 1]];
    }
  }

  /** The rate limits' own keys: two spellings share their /64 key exactly when the first
      64 bits of their addresses are the same, and their /48 key when the first 48 are. */
  lemma SameSubnetIff(s: Spelling, t: Spelling)
    requires WellFormed(s) && WellFormed(t)
    ensures |Meaning(s)| == |Meaning(t)| == 8
    ensures Prefix64(Render(s)).Some? && Prefix48(Render(s)).Some?
    ensures Prefix64(Render(s)) == Prefix64(Render(t)) <==> Leading(Meaning(s), 4) == Leading(Meaning(t), 4)
    ensures Prefix48(Render(s)) == Prefix48(Render(t)) <==> Leading(Meaning(s), 3) == Leading(Meaning(t), 3)
  {
    SameKeyIff(s, t, 4);
    SameKeyIff(s, t, 3);
    MeaningBelow(s);
    MeaningBelow(t);
    SameLeadingIff(Meaning(s), Meaning(t), 4);
    SameLeadingIff(Meaning(s), Meaning(t), 3);
  }

  lemma MeaningBelow(s: Spelling)
    requires WellFormed(s)
    ensures |Meaning(s)| == 8 && forall k :: 0 <= k < 8 ==> Meaning(s)[k] < 0x1_0000
  {
    SpellingParses(s);
    var groups := ParsedGroups(Render(s));
    HexJoinInjective(groups, Meaning(s));
  }
}
