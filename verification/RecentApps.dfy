/** Recently opened apps per scope (open-routing.ts): a most-recently-used list of
    apps in each of a most-recently-used list of scopes, kept in a JSON object. */
module RecentApps {
  import opened Common

  const RECENT_APPS_PER_SCOPE := 8
  const MAX_RECENT_SCOPES := 16
  const MAX_SCOPE_LENGTH := 512
  const MAX_KEY_LENGTH := 512

  // --- Most recently used -----------------------------------------------------------------------

  /** Something filed under a key. */
  datatype Item<V> = Item(key: string, value: V)

  type Apps = seq<Item<string>>

  type Scopes = seq<Item<Apps>>

  function Take<T>(l: seq<T>, n: nat): (r: seq<T>)
    ensures |r| == if |l| < n then |l| else n
  {
    if |l| <= n then l else l[..n]
  }

  function Without<V>(l: seq<Item<V>>, key: string): seq<Item<V>> {
    if l == [] then []
    else (if l[0].key != key then [l[0]] else []) + Without(l[1..], key)
  }

  lemma {:induction false} WithoutHas<V(!new)>(l: seq<Item<V>>, key: string)
    ensures forall x :: x in Without(l, key) <==> x in l && x.key != key
  {
    if l != [] {
      WithoutHas(l[1..], key);
      assert l == [l[0]] + l[1..];
    }
  }

  /** `x` goes to the front of a list of at most `n`. */
  function Push<V(!new)>(l: seq<Item<V>>, x: Item<V>, n: nat): seq<Item<V>> {
    Take([x] + Without(l, x.key), n)
  }

  ghost predicate Distinct<V(!new)>(l: seq<Item<V>>) {
    forall i, j :: 0 <= i < j < |l| ==> l[i].key != l[j].key
  }

  /** The first of each key. */
  function Dedup<V(!new)>(l: seq<Item<V>>): seq<Item<V>> {
    if l == [] then [] else [l[0]] + Without(Dedup(l[1..]), l[0].key)
  }

  function Reversed<T>(l: seq<T>): seq<T> {
    if l == [] then [] else [l[|l| - 1]] + Reversed(l[..|l| - 1])
  }

  lemma {:induction false} DistinctWithout<V(!new)>(l: seq<Item<V>>, key: string)
    requires Distinct(l)
    ensures Distinct(Without(l, key))
  {
    if l != [] {
      DistinctWithout(l[1..], key);
      WithoutHas(l[1..], key);
    }
  }

  lemma {:induction false} WithoutNone<V(!new)>(l: seq<Item<V>>, key: string)
    requires forall x :: x in l ==> x.key != key
    ensures Without(l, key) == l
  {
    if l != [] {
      assert l[0] in l;
      WithoutNone(l[1..], key);
    }
  }

  lemma {:induction false} DedupDistinct<V(!new)>(l: seq<Item<V>>)
    ensures Distinct(Dedup(l)) && forall x :: x in Dedup(l) ==> x in l
  {
    if l != [] {
      DedupDistinct(l[1..]);
      DistinctWithout(Dedup(l[1..]), l[0].key);
      WithoutHas(Dedup(l[1..]), l[0].key);
    }
  }

  lemma TakeCons<T>(x: T, l: seq<T>, n: nat)
    requires n > 0
    ensures Take([x] + l, n) == [x] + Take(l, n - 1)
  {
  }

  lemma {:induction false} WithoutCons<V(!new)>(x: Item<V>, l: seq<Item<V>>, key: string)
    ensures Without([x] + l, key) == if x.key != key then [x] + Without(l, key) else Without(l, key)
  {
    assert ([x] + l)[1..] == l;
  }

  /** At most one item has the key: the first n of the others are among the first
      n + 1. */
  lemma {:induction false} WithoutTake<V(!new)>(l: seq<Item<V>>, key: string, n: nat)
    requires Distinct(l)
    ensures Take(Without(Take(l, n + 1), key), n) == Take(Without(l, key), n)
  {
    if l != [] && n > 0 {
      var x, tail := l[0], l[1..];
      assert l == [x] + tail;
      TakeCons(x, tail, n + 1);
      WithoutCons(x, tail, key);
      WithoutCons(x, Take(tail, n), key);
      if x.key == key {
        WithoutNone(tail, key);
        WithoutNone(Take(tail, n), key);
      } else {
        WithoutTake(tail, key, n - 1);
        TakeCons(x, Without(tail, key), n);
        TakeCons(x, Without(Take(tail, n), key), n);
      }
    }
  }

  /** Pushing onto the first n is pushing onto the whole. */
  lemma {:induction false} PushTake<V(!new)>(l: seq<Item<V>>, x: Item<V>, n: nat)
    requires Distinct(l) && n > 0
    ensures Push(Take(l, n), x, n) == Take([x] + Without(l, x.key), n)
  {
    WithoutTake(l, x.key, n - 1);
    TakeCons(x, Without(Take(l, n), x.key), n);
    TakeCons(x, Without(l, x.key), n);
    assert Push(Take(l, n), x, n) == [x] + Take(Without(Take(l, n), x.key), n - 1);
  }

  /** A list pushed one by one. */
  function Pushed<V(!new)>(h: seq<Item<V>>, n: nat): seq<Item<V>> {
    if h == [] then [] else Push(Pushed(h[..|h| - 1], n), h[|h| - 1], n)
  }

  /** The cache is the first n of the history, newest first and without repeats. */
  lemma {:induction false} PushedIsRecent<V(!new)>(h: seq<Item<V>>, n: nat)
    requires n > 0
    ensures Pushed(h, n) == Take(Dedup(Reversed(h)), n)
  {
    if h != [] {
      var before := h[..|h| - 1];
      PushedIsRecent(before, n);
      DedupDistinct(Reversed(before));
      PushTake(Dedup(Reversed(before)), h[|h| - 1], n);
      assert Reversed(h)[1..] == Reversed(before);
    }
  }

  // --- The order of an object's keys ---------------------------------------------------------------

  /** An array index, which an object lists before its other keys, by number. */
  predicate IsIndex(s: string) {
    && s != [] && (forall k :: 0 <= k < |s| ==> Digit(s[k])) && (s[0] == '0' ==> |s| == 1)
    && Decimal(s) < 0xFFFF_FFFF
  }

  lemma {:induction false} DecimalPositive(s: string)
    requires s != [] && (forall k :: 0 <= k < |s| ==> Digit(s[k])) && s[0] != '0'
    ensures Decimal(s) > 0
  {
    if |s| > 1 { DecimalPositive(s[..|s| - 1]); }
  }

  lemma LeadingDigit(s: string)
    requires s != [] && (forall k :: 0 <= k < |s| ==> Digit(s[k])) && (s[0] == '0' ==> |s| == 1)
    ensures
      var a := s[..|s| - 1];
      a != [] ==> (forall k :: 0 <= k < |a| ==> Digit(a[k])) && a[0] != '0'
  {
  }

  lemma {:induction false} DecimalInjective(s: string, t: string)
    requires s != [] && (forall k :: 0 <= k < |s| ==> Digit(s[k])) && (s[0] == '0' ==> |s| == 1)
    requires t != [] && (forall k :: 0 <= k < |t| ==> Digit(t[k])) && (t[0] == '0' ==> |t| == 1)
    requires Decimal(s) == Decimal(t)
    ensures s == t
  {
    var a, b := s[..|s| - 1], t[..|t| - 1];
    assert s == a + [s[|s| - 1]] && t == b + [t[|t| - 1]];
    assert Decimal(a) == Decimal(b) && s[|s| - 1] == t[|t| - 1];
    LeadingDigit(s);
    LeadingDigit(t);
    if a != [] { DecimalPositive(a); }
    if b != [] { DecimalPositive(b); }
    if a != [] && b != [] { DecimalInjective(a, b); }
  }

  /** A number in base 10. */
  function DecimalText(n: nat): (r: string)
    ensures r != []
  {
    if n < 10 then ['0' + n as char] else DecimalText(n / 10) + ['0' + (n % 10) as char]
  }

  lemma {:induction false} DecimalTextReads(n: nat)
    ensures
      var s := DecimalText(n);
      && Decimal(s) == n && (forall k :: 0 <= k < |s| ==> Digit(s[k])) && (s[0] == '0' ==> |s| == 1)
      && (n > 0 ==> s[0] != '0')
  {
    if n >= 10 {
      DecimalTextReads(n / 10);
      assert DecimalText(n)[..|DecimalText(n)| - 1] == DecimalText(n / 10);
    } else {
      assert Decimal(DecimalText(n)[..0]) == 0;
    }
  }

  /** The array indexes are the numbers below 2^32 - 1 as they are written in base 10. */
  lemma {:induction false} IsIndexIff(s: string)
    ensures IsIndex(s) <==> s == DecimalText(Decimal(s)) && Decimal(s) < 4_294_967_295
  {
    DecimalTextReads(Decimal(s));
    if IsIndex(s) { DecimalInjective(s, DecimalText(Decimal(s))); }
  }

  function Insert<V>(x: Item<V>, l: seq<Item<V>>): (r: seq<Item<V>>)
    ensures |r| == |l| + 1
  {
    if l == [] || Decimal(x.key) <= Decimal(l[0].key) then [x] + l else [l[0]] + Insert(x, l[1..])
  }

  function Sort<V>(l: seq<Item<V>>): (r: seq<Item<V>>)
    ensures |r| == |l|
  {
    if l == [] then [] else Insert(l[0], Sort(l[1..]))
  }

  function Only<V>(l: seq<Item<V>>, index: bool): seq<Item<V>> {
    if l == [] then [] else (if IsIndex(l[0].key) == index then [l[0]] else []) + Only(l[1..], index)
  }

  /** The order in which an object made of these entries lists them. */
  function OwnOrder<V>(l: seq<Item<V>>): seq<Item<V>> {
    Sort(Only(l, true)) + Only(l, false)
  }

  lemma {:induction false} InsertHas<V(!new)>(x: Item<V>, l: seq<Item<V>>)
    ensures forall y :: y in Insert(x, l) <==> y == x || y in l
  {
    if l != [] {
      InsertHas(x, l[1..]);
      assert l == [l[0]] + l[1..];
    }
  }

  lemma {:induction false} SortHas<V(!new)>(l: seq<Item<V>>)
    ensures forall y :: y in Sort(l) <==> y in l
  {
    if l != [] {
      SortHas(l[1..]);
      InsertHas(l[0], Sort(l[1..]));
      assert l == [l[0]] + l[1..];
    }
  }

  lemma {:induction false} OnlyHas<V(!new)>(l: seq<Item<V>>, index: bool)
    ensures forall x :: x in Only(l, index) <==> x in l && IsIndex(x.key) == index
  {
    if l != [] {
      OnlyHas(l[1..], index);
      assert l == [l[0]] + l[1..];
    }
  }

  lemma {:induction false} OnlySizes<V>(l: seq<Item<V>>)
    ensures |Only(l, true)| + |Only(l, false)| == |l|
  {
    if l != [] { OnlySizes(l[1..]); }
  }

  lemma OwnOrderHas<V(!new)>(l: seq<Item<V>>)
    ensures forall x :: x in OwnOrder(l) <==> x in l
    ensures |OwnOrder(l)| == |l|
  {
    OnlySizes(l);
    OnlyHas(l, true);
    OnlyHas(l, false);
    SortHas(Only(l, true));
  }

  ghost predicate Ascending<V>(l: seq<Item<V>>) {
    forall i, j :: 0 <= i < j < |l| ==> Decimal(l[i].key) < Decimal(l[j].key)
  }

  lemma AscendingCons<V>(x: Item<V>, l: seq<Item<V>>)
    requires Ascending(l) && forall k :: 0 <= k < |l| ==> Decimal(x.key) < Decimal(l[k].key)
    ensures Ascending([x] + l)
  {
  }

  lemma AscendingTail<V>(l: seq<Item<V>>)
    requires l != [] && Ascending(l)
    ensures Ascending(l[1..]) && forall k :: 0 <= k < |l| - 1 ==> Decimal(l[0].key) < Decimal(l[1..][k].key)
  {
  }

  lemma {:induction false} InsertAscends<V(!new)>(x: Item<V>, l: seq<Item<V>>)
    requires Ascending(l) && forall k :: 0 <= k < |l| ==> Decimal(l[k].key) != Decimal(x.key)
    ensures Ascending(Insert(x, l))
  {
    if l == [] || Decimal(x.key) <= Decimal(l[0].key) {
      AscendingCons(x, l);
    } else {
      var r := Insert(x, l[1..]);
      AscendingTail(l);
      InsertAscends(x, l[1..]);
      InsertHas(x, l[1..]);
      forall k | 0 <= k < |r| ensures Decimal(l[0].key) < Decimal(r[k].key) {
        assert r[k] in r;
      }
      AscendingCons(l[0], r);
    }
  }

  lemma {:induction false} SortAscends<V(!new)>(l: seq<Item<V>>)
    requires Distinct(l) && forall y :: y in l ==> IsIndex(y.key)
    ensures Ascending(Sort(l))
  {
    if l != [] {
      SortAscends(l[1..]);
      SortHas(l[1..]);
      var s := Sort(l[1..]);
      forall i | 0 <= i < |s| ensures Decimal(s[i].key) != Decimal(l[0].key) {
        assert s[i] in s;
        var k :| 0 <= k < |l[1..]| && l[1..][k] == s[i];
        assert l[0] in l && l[k + 1] in l && l[k + 1].key != l[0].key;
        if Decimal(s[i].key) == Decimal(l[0].key) { DecimalInjective(s[i].key, l[0].key); }
      }
      InsertAscends(l[0], s);
    }
  }

  lemma HeadIn<V>(l: seq<Item<V>>)
    ensures l != [] ==> l[0] in l
  {
  }

  lemma {:induction false} AscendingUnique<V(!new)>(a: seq<Item<V>>, b: seq<Item<V>>)
    requires Ascending(a) && Ascending(b) && forall x :: x in a <==> x in b
    ensures a == b
  {
    HeadIn(a);
    HeadIn(b);
    if a != [] {
      assert a[0] in b;
      var i :| 0 <= i < |b| && b[i] == a[0];
      assert b[0] in a;
      var j :| 0 <= j < |a| && a[j] == b[0];
      assert i == 0 && j == 0;
      forall x ensures x in a[1..] <==> x in b[1..] {
        if x in a[1..] { assert x in a && x != a[0]; }
        if x in b[1..] { assert x in b && x != b[0]; }
      }
      AscendingUnique(a[1..], b[1..]);
    }
  }

  lemma {:induction false} OnlyDistinct<V(!new)>(l: seq<Item<V>>, index: bool)
    requires Distinct(l)
    ensures Distinct(Only(l, index))
  {
    if l != [] {
      OnlyDistinct(l[1..], index);
      OnlyHas(l[1..], index);
    }
  }

  lemma {:induction false} OnlyWithout<V(!new)>(l: seq<Item<V>>, index: bool, key: string)
    ensures Only(Without(l, key), index) == Without(Only(l, index), key)
  {
    if l != [] {
      var x, tail := l[0], l[1..];
      assert l == [x] + tail;
      OnlyWithout(tail, index, key);
      WithoutCons(x, tail, key);
      OnlyCons(x, tail, index);
      OnlyCons(x, Without(tail, key), index);
      WithoutCons(x, Only(tail, index), key);
    }
  }

  lemma {:induction false} OnlyCons<V(!new)>(x: Item<V>, l: seq<Item<V>>, index: bool)
    ensures Only([x] + l, index) == if IsIndex(x.key) == index then [x] + Only(l, index) else Only(l, index)
  {
    assert ([x] + l)[1..] == l;
  }

  /** Without array indexes an object keeps the order it was given. */
  lemma {:induction false} PlainOrder<V(!new)>(l: seq<Item<V>>)
    requires forall x :: x in l ==> !IsIndex(x.key)
    ensures Only(l, false) == l && Only(l, true) == [] && OwnOrder(l) == l
  {
    if l != [] {
      assert l[0] in l;
      PlainOrder(l[1..]);
    }
  }

  lemma OwnOrderDistinct<V(!new)>(l: seq<Item<V>>)
    requires Distinct(l)
    ensures Distinct(OwnOrder(l))
  {
    OnlyDistinct(l, true);
    OnlyDistinct(l, false);
    OnlyHas(l, true);
    OnlyHas(l, false);
    SortAscends(Only(l, true));
    SortHas(Only(l, true));
    var a, b := Sort(Only(l, true)), Only(l, false);
    var c := a + b;
    forall i: nat, j: nat | i < j < |c| ensures c[i].key != c[j].key {
      assert i < |a| ==> IsIndex(a[i].key) by { assert i < |a| ==> a[i] in a; }
      assert j >= |a| ==> !IsIndex(b[j - |a|].key) by { assert j >= |a| ==> b[j - |a|] in b; }
    }
  }

  // --- What is stored ---------------------------------------------------------------------------------

  /** An entry of a stored list: anything may be there. */
  datatype RawApp = RawApp(key: string, at: string) | Junk

  /** The stored object, if it is one: a list, or something else, for each scope. */
  type Raw = seq<Item<Option<seq<RawApp>>>>

  predicate ValidKey(key: string) { 0 < |key| <= MAX_KEY_LENGTH }

  function ValidApps(items: seq<RawApp>): (r: Apps)
    ensures forall k :: 0 <= k < |r| ==> ValidKey(r[k].key)
  {
    if items == [] then []
    else
      var last := items[|items| - 1];
      ValidApps(items[..|items| - 1]) +
      if last.RawApp? && ValidKey(last.key) then [Item(last.key, last.at)] else []
  }

  /** The first eight valid apps, each once. */
  function TidyApps(items: seq<RawApp>): Apps {
    Take(Dedup(ValidApps(items)), RECENT_APPS_PER_SCOPE)
  }

  lemma SumCons<T>(x: seq<T>, a: seq<T>, b: seq<T>)
    ensures x + (a + b) == x + a + b
  {
  }

  lemma {:induction false} WithoutAppend<V(!new)>(l: seq<Item<V>>, x: Item<V>, key: string)
    ensures Without(l + [x], key) == Without(l, key) + if x.key != key then [x] else []
  {
    if l == [] {
      assert [] + [x] == [x];
    } else {
      var head, tail, end := l[0], l[1..], if x.key != key then [x] else [];
      WithoutAppend(tail, x, key);
      assert l == [head] + tail;
      SumCons([head], tail, [x]);
      WithoutCons(head, tail, key);
      WithoutCons(head, tail + [x], key);
      SumCons([head], Without(tail, key), end);
    }
  }

  ghost predicate HasKey<V>(l: seq<Item<V>>, key: string) {
    exists k :: 0 <= k < |l| && l[k].key == key
  }

  lemma {:induction false} DedupAppend<V(!new)>(l: seq<Item<V>>, x: Item<V>)
    ensures Dedup(l + [x]) == Dedup(l) + if HasKey(Dedup(l), x.key) then [] else [x]
  {
    if l == [] {
      assert [] + [x] == [x];
    } else {
      var head, tail := l[0], l[1..];
      DedupAppend(tail, x);
      assert (l + [x])[1..] == tail + [x];
      var d := Dedup(tail);
      var rest := Without(d, head.key);
      HasKeyWithout(d, head.key, x.key);
      HasKeyCons(head, rest, x.key);
      if HasKey(d, x.key) {
        assert d + [] == d;
        assert Dedup(l) + [] == Dedup(l);
      } else {
        WithoutAppend(d, x, head.key);
        SumCons([head], rest, if x.key != head.key then [x] else []);
      }
    }
  }

  lemma HasKeyCons<V(!new)>(x: Item<V>, l: seq<Item<V>>, key: string)
    ensures HasKey([x] + l, key) <==> x.key == key || HasKey(l, key)
  {
    if x.key == key { assert ([x] + l)[0].key == key; }
    if HasKey(l, key) {
      var k :| 0 <= k < |l| && l[k].key == key;
      assert ([x] + l)[k + 1].key == key;
    }
  }

  lemma {:induction false} HasKeyWithout<V(!new)>(l: seq<Item<V>>, gone: string, key: string)
    ensures HasKey(Without(l, gone), key) <==> HasKey(l, key) && key != gone
  {
    var w := Without(l, gone);
    WithoutHas(l, gone);
    if HasKey(w, key) {
      var k :| 0 <= k < |w| && w[k].key == key;
      assert w[k] in l;
    }
    if HasKey(l, key) && key != gone {
      var k :| 0 <= k < |l| && l[k].key == key;
      assert l[k] in w;
    }
  }

  lemma {:induction false} DedupGrows<V(!new)>(l: seq<Item<V>>, more: seq<Item<V>>)
    ensures Dedup(l) <= Dedup(l + more)
  {
    if more == [] {
      assert l + more == l;
    } else {
      var n := |more| - 1;
      DedupGrows(l, more[..n]);
      DedupAppend(l + more[..n], more[n]);
      assert l + more == l + more[..n] + [more[n]];
    }
  }

  lemma {:induction false} ValidGrows(items: seq<RawApp>, i: nat)
    requires i <= |items|
    ensures ValidApps(items[..i]) <= ValidApps(items)
  {
    if i < |items| {
      ValidGrows(items[..|items| - 1], i);
      assert items[..|items| - 1][..i] == items[..i];
    } else {
      assert items[..i] == items;
    }
  }

  lemma OneMoreApp(items: seq<RawApp>, i: nat)
    requires i < |items|
    ensures
      var d := Dedup(ValidApps(items[..i]));
      Dedup(ValidApps(items[..i + 1])) ==
        if items[i].RawApp? && ValidKey(items[i].key) && !HasKey(d, items[i].key)
          then d + [Item(items[i].key, items[i].at)] else d
  {
    var l := ValidApps(items[..i]);
    assert items[..i + 1][..i] == items[..i];
    if items[i].RawApp? && ValidKey(items[i].key) {
      DedupAppend(l, Item(items[i].key, items[i].at));
      assert Dedup(l) + [] == Dedup(l);
    } else {
      assert l + [] == l;
    }
  }

  /** Once eight are found, the rest does not matter. */
  lemma FullAfter(items: seq<RawApp>, i: nat)
    requires i <= |items| && |Dedup(ValidApps(items[..i]))| == RECENT_APPS_PER_SCOPE
    ensures TidyApps(items) == Dedup(ValidApps(items[..i]))
  {
    ValidGrows(items, i);
    var l, all := ValidApps(items[..i]), ValidApps(items);
    DedupGrows(l, all[|l|..]);
    assert l + all[|l|..] == all;
  }

  /** Reads one stored list. */
  method ReadApps(items: seq<RawApp>) returns (apps: Apps)
    ensures apps == TidyApps(items)
  {
    apps := [];
    for i := 0 to |items|
      invariant apps == Dedup(ValidApps(items[..i])) && |apps| < RECENT_APPS_PER_SCOPE
    {
      var item := items[i];
      OneMoreApp(items, i);
      if item.Junk? || !ValidKey(item.key) { continue; }
      var known := exists k :: 0 <= k < |apps| && apps[k].key == item.key;
      if known { continue; }
      apps := apps + [Item(item.key, item.at)];
      if |apps| >= RECENT_APPS_PER_SCOPE {
        FullAfter(items, i + 1);
        return;
      }
    }
    assert items[..|items|] == items;
  }

  function TidyScopes(raw: Raw): Scopes {
    if raw == [] then []
    else TidyScopes(raw[..|raw| - 1]) + TidyScope(raw[|raw| - 1])
  }

  function TidyScope(x: Item<Option<seq<RawApp>>>): Scopes {
    if x.value.Some? && |x.key| <= MAX_SCOPE_LENGTH then [Item(x.key, TidyApps(x.value.value))] else []
  }

  function RawApps(apps: Apps): (r: seq<RawApp>)
    ensures |r| == |apps|
  {
    seq(|apps|, k requires 0 <= k < |apps| => RawApp(apps[k].key, apps[k].value))
  }

  function Encode(scopes: Scopes): (r: Raw)
    ensures |r| == |scopes|
  {
    seq(|scopes|, k requires 0 <= k < |scopes| => Item(scopes[k].key, Some(RawApps(scopes[k].value))))
  }

  ghost predicate SoundApps(apps: Apps) {
    Distinct(apps) && |apps| <= 8 && forall k :: 0 <= k < |apps| ==> 1 <= |apps[k].key| <= 512
  }

  ghost predicate SoundScopes(l: Scopes) {
    Distinct(l) && forall k :: 0 <= k < |l| ==> |l[k].key| <= 512 && SoundApps(l[k].value)
  }

  lemma {:induction false} DedupOf<V(!new)>(l: seq<Item<V>>)
    requires Distinct(l)
    ensures Dedup(l) == l
  {
    if l != [] {
      DedupOf(l[1..]);
      WithoutNone(l[1..], l[0].key);
    }
  }

  lemma {:induction false} ValidOf(apps: Apps)
    requires forall k :: 0 <= k < |apps| ==> ValidKey(apps[k].key)
    ensures ValidApps(RawApps(apps)) == apps
  {
    if apps != [] {
      var n := |apps| - 1;
      ValidOf(apps[..n]);
      assert RawApps(apps)[..n] == RawApps(apps[..n]);
      assert apps == apps[..n] + [apps[n]];
    }
  }

  lemma TidyScopeBack(x: Item<Apps>)
    requires |x.key| <= MAX_SCOPE_LENGTH && SoundApps(x.value)
    ensures TidyScope(Item(x.key, Some(RawApps(x.value)))) == [x]
  {
    ValidOf(x.value);
    DedupOf(x.value);
  }

  lemma EncodeSplit(l: Scopes)
    requires l != []
    ensures
      var n := |l| - 1;
      Encode(l)[..n] == Encode(l[..n]) && Encode(l)[n] == Item(l[n].key, Some(RawApps(l[n].value)))
        && l == l[..n] + [l[n]]
  {
  }

  /** What is written is read back. */
  lemma {:induction false} ReadsBack(l: Scopes)
    requires SoundScopes(l)
    ensures TidyScopes(Encode(l)) == l
  {
    if l != [] {
      EncodeSplit(l);
      ReadsBack(l[..|l| - 1]);
      TidyScopeBack(l[|l| - 1]);
    }
  }

  lemma TidyAppsSound(items: seq<RawApp>)
    ensures SoundApps(TidyApps(items))
  {
    var valid := ValidApps(items);
    DedupDistinct(valid);
    forall k | 0 <= k < |Dedup(valid)| ensures ValidKey(Dedup(valid)[k].key) {
      assert Dedup(valid)[k] in valid;
    }
  }

  function Keys<V>(l: seq<Item<V>>): set<string> {
    set k | 0 <= k < |l| :: l[k].key
  }

  lemma {:induction false} TidyKeys(raw: Raw)
    ensures Keys(TidyScopes(raw)) <= Keys(raw)
  {
    if raw != [] {
      var n := |raw| - 1;
      TidyKeys(raw[..n]);
      assert Keys(raw) == Keys(raw[..n]) + {raw[n].key} by {
        forall key | key in Keys(raw) ensures key in Keys(raw[..n]) + {raw[n].key} {
          var k :| 0 <= k < |raw| && raw[k].key == key;
          if k < n { assert raw[..n][k].key == key; }
        }
        forall key | key in Keys(raw[..n]) ensures key in Keys(raw) {
          var k :| 0 <= k < n && raw[..n][k].key == key;
          assert raw[k].key == key;
        }
      }
    }
  }

  lemma LastKeyIsNew<V(!new)>(l: seq<Item<V>>)
    requires l != [] && Distinct(l)
    ensures l[|l| - 1].key !in Keys(l[..|l| - 1])
  {
  }

  lemma DistinctSnoc<V(!new)>(l: seq<Item<V>>, x: Item<V>)
    requires Distinct(l) && x.key !in Keys(l)
    ensures Distinct(l + [x])
  {
    forall k | 0 <= k < |l| ensures l[k].key != x.key { assert l[k].key in Keys(l); }
  }

  /** What is read is sound, whatever was stored. */
  lemma {:induction false} TidySound(raw: Raw)
    requires Distinct(raw)
    ensures SoundScopes(TidyScopes(raw))
  {
    if raw != [] {
      var n := |raw| - 1;
      var before := TidyScopes(raw[..n]);
      TidySound(raw[..n]);
      TidyKeys(raw[..n]);
      LastKeyIsNew(raw);
      if raw[n].value.Some? {
        TidyAppsSound(raw[n].value.value);
        DistinctSnoc(before, Item(raw[n].key, TidyApps(raw[n].value.value)));
      }
    }
  }

  function Lookup(l: Scopes, scope: string): Apps {
    if l == [] then [] else if l[0].key == scope then l[0].value else Lookup(l[1..], scope)
  }

  lemma {:induction false} LookupIs(l: Scopes, scope: string)
    requires Distinct(l)
    ensures forall x :: x in l && x.key == scope ==> Lookup(l, scope) == x.value
    ensures (forall x :: x in l ==> x.key != scope) ==> Lookup(l, scope) == []
  {
    if l != [] {
      assert l == [l[0]] + l[1..];
      LookupIs(l[1..], scope);
      assert l[0] in l;
    }
  }

  // --- Recording ----------------------------------------------------------------------------------

  /** The scopes after an app was opened. */
  function Recorded(scopes: Scopes, scope: string, app: Item<string>): Scopes {
    OwnOrder(Push(scopes, Item(scope, Push(Lookup(scopes, scope), app, RECENT_APPS_PER_SCOPE)), MAX_RECENT_SCOPES))
  }

  class RecentStore {
    var raw: Raw

    constructor ()
      ensures raw == []
    {
      raw := [];
    }

    method ReadRecentScopes() returns (scopes: Scopes)
      ensures scopes == TidyScopes(raw)
    {
      scopes := [];
      for i := 0 to |raw|
        invariant scopes == TidyScopes(raw[..i])
      {
        assert raw[..i + 1][..i] == raw[..i];
        if raw[i].value.None? || |raw[i].key| > MAX_SCOPE_LENGTH { continue; }
        var apps := ReadApps(raw[i].value.value);
        scopes := scopes + [Item(raw[i].key, apps)];
      }
      assert raw[..|raw|] == raw;
    }

    method ReadRecentApps(scope: string) returns (apps: Apps)
      ensures apps == Lookup(TidyScopes(raw), scope)
    {
      var scopes := ReadRecentScopes();
      apps := Lookup(scopes, scope);
    }

    method RecordRecentApp(scope: string, key: string, at: string) returns (apps: Apps)
      modifies this
      ensures raw == Encode(Recorded(TidyScopes(old(raw)), scope, Item(key, at)))
      ensures apps == Push(Lookup(TidyScopes(old(raw)), scope), Item(key, at), RECENT_APPS_PER_SCOPE)
    {
      var scopes := ReadRecentScopes();
      apps := Take([Item(key, at)] + Without(Lookup(scopes, scope), key), RECENT_APPS_PER_SCOPE);
      var kept := Take([Item(scope, apps)] + Without(scopes, scope), MAX_RECENT_SCOPES);
      raw := Encode(OwnOrder(kept));
    }

    /** Any opens, one after the other. */
    method Replay(h: History)
      requires raw == []
      modifies this
      ensures raw == After(h)
    {
      for i := 0 to |h|
        invariant raw == After(h[..i])
      {
        assert h[..i + 1][..i] == h[..i];
        var _ := RecordRecentApp(h[i].key, h[i].value.key, h[i].value.value);
      }
      assert h[..|h|] == h;
    }
  }

  // --- Against the history ---------------------------------------------------------------------------

  /** Opens, oldest first: the scope, and the app with its time. */
  type History = seq<Item<Item<string>>>

  function After(h: History): Raw {
    if h == [] then []
    else Encode(Recorded(TidyScopes(After(h[..|h| - 1])), h[|h| - 1].key, h[|h| - 1].value))
  }

  function OpensIn(h: History, scope: string): seq<Item<string>> {
    if h == [] then []
    else OpensIn(h[..|h| - 1], scope) + if h[|h| - 1].key == scope then [h[|h| - 1].value] else []
  }

  /** The first eight of the scope's whole history, newest first, without repeats. */
  function Recents(h: History, scope: string): Apps {
    Take(Dedup(Reversed(OpensIn(h, scope))), 8)
  }

  predicate ValidOpen(o: Item<Item<string>>) {
    |o.key| <= 512 && 1 <= |o.value.key| <= 512
  }

  lemma PushSoundApps(apps: Apps, app: Item<string>)
    requires SoundApps(apps) && ValidKey(app.key)
    ensures SoundApps(Push(apps, app, RECENT_APPS_PER_SCOPE))
  {
    WithoutHas(apps, app.key);
    DistinctWithout(apps, app.key);
    var rest := Without(apps, app.key);
    forall k | 0 <= k < |rest| ensures rest[k].key != app.key && ValidKey(rest[k].key) {
      assert rest[k] in apps;
    }
  }
}
