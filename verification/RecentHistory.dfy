/** The stored recent apps against the whole history of opens. */
module RecentHistory {
  import opened Common
  import opened RecentApps

  // --- One more open ---------------------------------------------------------------------------

  lemma {:induction false} WithoutSize<V(!new)>(l: seq<Item<V>>, key: string)
    requires Distinct(l)
    ensures |Without(l, key)| == |l| - if HasKey(l, key) then 1 else 0
  {
    if l != [] {
      var head, tail := l[0], l[1..];
      assert l == [head] + tail;
      HasKeyCons(head, tail, key);
      WithoutCons(head, tail, key);
      if head.key == key {
        WithoutNone(tail, key);
      } else {
        WithoutSize(tail, key);
      }
    }
  }

  lemma PushDistinct<V(!new)>(l: seq<Item<V>>, x: Item<V>, n: nat)
    requires Distinct(l)
    ensures Distinct(Push(l, x, n))
  {
    WithoutHas(l, x.key);
    DistinctWithout(l, x.key);
    var rest := Without(l, x.key);
    forall k | 0 <= k < |rest| ensures rest[k].key != x.key { assert rest[k] in rest; }
  }

  /** A push onto a list of at most n loses its last item exactly when the list is
      full and the key is new. */
  lemma {:induction false} PushCases<V(!new)>(l: seq<Item<V>>, x: Item<V>, n: nat)
    requires Distinct(l) && |l| <= n && n > 0
    ensures HasKey(l, x.key) || |l| < n ==> Push(l, x, n) == [x] + Without(l, x.key)
    ensures !HasKey(l, x.key) && |l| == n ==> Push(l, x, n) == [x] + l[..n - 1]
  {
    WithoutSize(l, x.key);
    if !HasKey(l, x.key) && |l| == n {
      WithoutNone(l, x.key);
      TakeCons(x, l, n);
    }
  }

  lemma {:induction false} LookupSame(a: Scopes, b: Scopes, scope: string)
    requires Distinct(a) && Distinct(b)
    requires forall x: Item<Apps> :: x.key == scope ==> (x in a <==> x in b)
    ensures Lookup(a, scope) == Lookup(b, scope)
  {
    LookupIs(a, scope);
    LookupIs(b, scope);
    if HasKey(a, scope) {
      var k :| 0 <= k < |a| && a[k].key == scope;
      assert a[k] in b;
    } else {
      assert forall x :: x in a ==> x.key != scope;
      assert forall x :: x in b ==> x.key != scope;
    }
  }

  /** What the store is after the open, before an object orders it. */
  function Next(l: Scopes, scope: string, app: Item<string>): Scopes {
    Push(l, Item(scope, Push(Lookup(l, scope), app, RECENT_APPS_PER_SCOPE)), MAX_RECENT_SCOPES)
  }

  lemma {:induction false} LookupSound(l: Scopes, scope: string)
    requires SoundScopes(l)
    ensures SoundApps(Lookup(l, scope))
  {
    LookupIs(l, scope);
    if HasKey(l, scope) {
      var k :| 0 <= k < |l| && l[k].key == scope;
      assert l[k] in l;
    } else {
      assert forall x :: x in l ==> x.key != scope;
    }
  }

  lemma NextSound(l: Scopes, scope: string, app: Item<string>)
    requires SoundScopes(l) && |l| <= MAX_RECENT_SCOPES && |scope| <= MAX_SCOPE_LENGTH && ValidKey(app.key)
    ensures SoundScopes(Next(l, scope, app))
  {
    LookupSound(l, scope);
    PushSoundApps(Lookup(l, scope), app);
    var x := Item(scope, Push(Lookup(l, scope), app, RECENT_APPS_PER_SCOPE));
    PushCases(l, x, MAX_RECENT_SCOPES);
    PushDistinct(l, x, MAX_RECENT_SCOPES);
    WithoutHas(l, scope);
    var next := Next(l, scope, app);
    forall k | 0 <= k < |next| ensures |next[k].key| <= MAX_SCOPE_LENGTH && SoundApps(next[k].value) {
      assert k > 0 ==> next[k] in l by {
        if k > 0 && (HasKey(l, scope) || |l| < MAX_RECENT_SCOPES) { assert next[k] in Without(l, scope); }
      }
    }
  }

  /** The store stays sound, and an object keeps its entries. */
  lemma RecordedSound(l: Scopes, scope: string, app: Item<string>)
    requires SoundScopes(l) && |l| <= MAX_RECENT_SCOPES && |scope| <= MAX_SCOPE_LENGTH && ValidKey(app.key)
    ensures SoundScopes(Recorded(l, scope, app)) && |Recorded(l, scope, app)| <= MAX_RECENT_SCOPES
    ensures forall x :: x in Recorded(l, scope, app) <==> x in Next(l, scope, app)
  {
    var next, after := Next(l, scope, app), Recorded(l, scope, app);
    NextSound(l, scope, app);
    OwnOrderHas(next);
    OwnOrderDistinct(next);
    forall k | 0 <= k < |after| ensures |after[k].key| <= MAX_SCOPE_LENGTH && SoundApps(after[k].value) {
      assert after[k] in next;
    }
  }

  /** The scope that a new one pushes out of a full store. */
  function Lost(l: Scopes, scope: string): Option<string> {
    if |l| == MAX_RECENT_SCOPES && !(exists k :: 0 <= k < |l| && l[k].key == scope) then Some(l[|l| - 1].key) else None
  }

  /** Recording in one scope puts the app first there, and leaves every other scope's
      list as it is, except for the scope it pushes out. */
  lemma {:induction false} RecordedLists(l: Scopes, scope: string, app: Item<string>, other: string)
    requires SoundScopes(l) && |l| <= MAX_RECENT_SCOPES && |scope| <= MAX_SCOPE_LENGTH && ValidKey(app.key)
    ensures Lookup(Recorded(l, scope, app), scope) == Push(Lookup(l, scope), app, RECENT_APPS_PER_SCOPE)
    ensures other != scope ==>
      Lookup(Recorded(l, scope, app), other) == if Lost(l, scope) == Some(other) then [] else Lookup(l, other)
  {
    var next, after := Next(l, scope, app), Recorded(l, scope, app);
    var x := Item(scope, Push(Lookup(l, scope), app, RECENT_APPS_PER_SCOPE));
    RecordedSound(l, scope, app);
    NextSound(l, scope, app);
    LookupSame(after, next, scope);
    LookupSame(after, next, other);
    PushCases(l, x, MAX_RECENT_SCOPES);
    assert next[0] == x && next[0] in next;
    LookupIs(next, scope);
    if other != scope { OtherList(l, x, other); }
  }

  lemma {:induction false} OtherList(l: Scopes, x: Item<Apps>, other: string)
    requires Distinct(l) && |l| <= MAX_RECENT_SCOPES && other != x.key
    ensures Lookup(Push(l, x, MAX_RECENT_SCOPES), other) ==
      if Lost(l, x.key) == Some(other) then [] else Lookup(l, other)
  {
    PushCases(l, x, MAX_RECENT_SCOPES);
    PushDistinct(l, x, MAX_RECENT_SCOPES);
    var next := Push(l, x, MAX_RECENT_SCOPES);
    WithoutHas(l, x.key);
    if Lost(l, x.key) == Some(other) {
      assert forall k :: 0 <= k < |l| - 1 ==> l[k].key != other;
      LookupIs(next, other);
    } else {
      LookupSame(next, l, other);
    }
  }

  // --- Any number of opens ------------------------------------------------------------------------

  ghost predicate AllValid(h: History) {
    forall k :: 0 <= k < |h| ==> ValidOpen(h[k])
  }

  function Shown(h: History): Scopes {
    TidyScopes(After(h))
  }

  /** What is shown after one more open. */
  lemma {:induction false} ShownNext(h: History)
    requires h != [] && AllValid(h)
    ensures
      var n := |h| - 1;
      Shown(h) == Recorded(Shown(h[..n]), h[n].key, h[n].value)
    ensures SoundScopes(Shown(h)) && |Shown(h)| <= MAX_RECENT_SCOPES
    ensures SoundScopes(Shown(h[..|h| - 1])) && |Shown(h[..|h| - 1])| <= MAX_RECENT_SCOPES
  {
    var n := |h| - 1;
    if n > 0 { ShownNext(h[..n]); }
    RecordedSound(Shown(h[..n]), h[n].key, h[n].value);
    ReadsBack(Recorded(Shown(h[..n]), h[n].key, h[n].value));
  }

  lemma {:induction false} KeysSize<V(!new)>(l: seq<Item<V>>)
    requires Distinct(l)
    ensures |Keys(l)| == |l|
  {
    if l != [] {
      var n := |l| - 1;
      KeysSize(l[..n]);
      KeysSplit(l);
    }
  }

  lemma KeysSplit<V(!new)>(l: seq<Item<V>>)
    requires l != []
    ensures Keys(l) == Keys(l[..|l| - 1]) + {l[|l| - 1].key}
  {
    var n := |l| - 1;
    forall key | key in Keys(l) ensures key in Keys(l[..n]) + {l[n].key} {
      var k :| 0 <= k < |l| && l[k].key == key;
      if k < n { assert l[..n][k].key == key; }
    }
    forall key | key in Keys(l[..n]) ensures key in Keys(l) {
      var k :| 0 <= k < n && l[..n][k].key == key;
      assert l[k].key == key;
    }
  }

  lemma SameKeys<V(!new)>(a: seq<Item<V>>, b: seq<Item<V>>)
    requires forall x :: x in a <==> x in b
    ensures Keys(a) == Keys(b)
  {
    forall k | 0 <= k < |a| ensures a[k].key in Keys(b) { assert a[k] in b; }
    forall k | 0 <= k < |b| ensures b[k].key in Keys(a) { assert b[k] in a; }
  }

  lemma {:induction false} KeysAfterPush<V(!new)>(l: seq<Item<V>>, x: Item<V>)
    ensures Keys([x] + Without(l, x.key)) == Keys(l) + {x.key}
  {
    WithoutHas(l, x.key);
    var rest := Without(l, x.key);
    var next := [x] + rest;
    assert next[0].key in Keys(next);
    forall k | 0 <= k < |rest| ensures rest[k].key in Keys(l) { assert rest[k] in l; }
    forall k | 0 <= k < |l| && l[k].key != x.key ensures l[k].key in Keys(next) {
      assert l[k] in rest;
      var q :| 0 <= q < |rest| && rest[q] == l[k];
      assert next[q + 1] == l[k];
    }
    forall key | key in Keys(next) ensures key in Keys(l) + {x.key} {
      var k :| 0 <= k < |next| && next[k].key == key;
      assert k > 0 ==> next[k] == rest[k - 1];
    }
  }

  lemma RecordedKeys(l: Scopes, scope: string, app: Item<string>)
    requires SoundScopes(l) && |l| <= MAX_RECENT_SCOPES && |scope| <= MAX_SCOPE_LENGTH && ValidKey(app.key)
    requires Lost(l, scope).None?
    ensures Keys(Recorded(l, scope, app)) == Keys(l) + {scope}
  {
    var x := Item(scope, Push(Lookup(l, scope), app, RECENT_APPS_PER_SCOPE));
    RecordedSound(l, scope, app);
    SameKeys(Recorded(l, scope, app), Next(l, scope, app));
    PushCases(l, x, MAX_RECENT_SCOPES);
    KeysAfterPush(l, x);
  }

  lemma NoneLost(l: Scopes, scope: string, all: set<string>)
    requires Distinct(l) && Keys(l) <= all && scope in all && |all| <= MAX_RECENT_SCOPES
    ensures Lost(l, scope).None?
  {
    if Lost(l, scope).Some? {
      assert scope !in Keys(l);
      KeysSize(l);
      CardSubset(Keys(l) + {scope}, all);
    }
  }

  /** With at most sixteen scopes each one's list is its own cache. */
  lemma {:induction false} EachScopeIsPushed(h: History, scope: string)
    requires AllValid(h) && |Keys(h)| <= MAX_RECENT_SCOPES
    ensures Keys(Shown(h)) == Keys(h)
    ensures Lookup(Shown(h), scope) == Pushed(OpensIn(h, scope), RECENT_APPS_PER_SCOPE)
  {
    if h != [] {
      var n := |h| - 1;
      ShownNext(h);
      KeysSplit(h);
      CardSubset(Keys(h[..n]), Keys(h));
      EachScopeIsPushed(h[..n], scope);
      NoneLost(Shown(h[..n]), h[n].key, Keys(h));
      RecordedKeys(Shown(h[..n]), h[n].key, h[n].value);
      RecordedLists(Shown(h[..n]), h[n].key, h[n].value, scope);
      var before := OpensIn(h[..n], scope);
      if scope == h[n].key {
        assert (before + [h[n].value])[..|before|] == before;
      } else {
        assert before + [] == before;
      }
    }
  }

  /** The promise: every scope shows the first eight of its own history, newest first
      and without repeats. */
  ghost predicate ShowsRecents(h: History) {
    forall scope :: Lookup(Shown(h), scope) == Recents(h, scope)
  }

  /** Opens in at most sixteen scopes keep the promise all along exactly when every
      key has 1 to 512 characters and every scope at most 512. */
  lemma ShowsRecentsIff(h: History)
    requires |Keys(h)| <= 16
    ensures AllValid(h) <==> forall i :: 0 <= i <= |h| ==> ShowsRecents(h[..i])
  {
    if AllValid(h) {
      forall i | 0 <= i <= |h| ensures ShowsRecents(h[..i]) {
        KeysPrefix(h, i);
        CardSubset(Keys(h[..i]), Keys(h));
        forall scope ensures Lookup(Shown(h[..i]), scope) == Recents(h[..i], scope) {
          EachScopeIsPushed(h[..i], scope);
          PushedIsRecent(OpensIn(h[..i], scope), RECENT_APPS_PER_SCOPE);
        }
      }
    } else {
      var k :| 0 <= k < |h| && !ValidOpen(h[k]);
      InvalidOpenHidden(h[..k + 1]);
      assert !ShowsRecents(h[..k + 1]);
    }
  }

  lemma KeysPrefix(h: History, i: nat)
    requires i <= |h|
    ensures Keys(h[..i]) <= Keys(h)
  {
    forall key | key in Keys(h[..i]) ensures key in Keys(h) {
      var k :| 0 <= k < i && h[..i][k].key == key;
      assert h[k].key == key;
    }
  }

  lemma {:induction false} AfterDistinct(h: History)
    ensures Distinct(After(h))
  {
    if h != [] {
      var n := |h| - 1;
      AfterDistinct(h[..n]);
      TidySound(After(h[..n]));
      var l := Shown(h[..n]);
      PushDistinct(l, Item(h[n].key, Push(Lookup(l, h[n].key), h[n].value, RECENT_APPS_PER_SCOPE)), MAX_RECENT_SCOPES);
      OwnOrderDistinct(Next(l, h[n].key, h[n].value));
    }
  }

  /** An open with such a key or scope is not shown. */
  lemma InvalidOpenHidden(h: History)
    requires h != [] && !ValidOpen(h[|h| - 1])
    ensures !ShowsRecents(h)
  {
    var n := |h| - 1;
    var scope := h[n].key;
    AfterDistinct(h);
    TidySound(After(h));
    LookupSound(Shown(h), scope);
    var opens := OpensIn(h, scope);
    assert opens[|opens| - 1] == h[n].value;
    assert Recents(h, scope)[0] == h[n].value;
    if |scope| > MAX_SCOPE_LENGTH {
      assert forall x :: x in Shown(h) ==> x.key != scope;
      LookupIs(Shown(h), scope);
    }
    assert Lookup(Shown(h), scope) != Recents(h, scope);
  }

  // --- Which scopes are kept ------------------------------------------------------------------------

  /** The keys alone, in order. */
  function Marks<V>(l: seq<Item<V>>): (r: seq<Item<()>>)
    ensures |r| == |l| && forall k :: 0 <= k < |l| ==> r[k].key == l[k].key
  {
    seq(|l|, k requires 0 <= k < |l| => Item(l[k].key, ()))
  }

  lemma MarksOne<V>(x: Item<V>, l: seq<Item<V>>)
    ensures Marks([x] + l) == [Item(x.key, ())] + Marks(l)
  {
  }

  lemma {:induction false} MarksWithout<V(!new)>(l: seq<Item<V>>, key: string)
    ensures Marks(Without(l, key)) == Without(Marks(l), key)
  {
    if l != [] {
      var x, tail := l[0], l[1..];
      assert l == [x] + tail;
      MarksOne(x, tail);
      MarksOne(x, Without(tail, key));
      WithoutCons(x, tail, key);
      WithoutCons(Item(x.key, ()), Marks(tail), key);
      MarksWithout(tail, key);
    }
  }

  lemma MarksPush<V(!new)>(l: seq<Item<V>>, x: Item<V>, n: nat)
    ensures Marks(Push(l, x, n)) == Push(Marks(l), Item(x.key, ()), n)
  {
    MarksWithout(l, x.key);
    MarksOne(x, Without(l, x.key));
    var full := [x] + Without(l, x.key);
    assert Marks(Take(full, n)) == Take(Marks(full), n);
  }

  ghost predicate NoIndexes<V>(l: seq<Item<V>>) {
    forall k :: 0 <= k < |l| ==> !IsIndex(l[k].key)
  }

  // --- Scopes that read as array indexes -------------------------------------------------------------

  lemma {:induction false} MarksInsert<V>(x: Item<V>, l: seq<Item<V>>)
    ensures Marks(Insert(x, l)) == Insert(Item(x.key, ()), Marks(l))
  {
    if l != [] {
      assert l == [l[0]] + l[1..];
      MarksOne(l[0], l[1..]);
      MarksOne(l[0], Insert(x, l[1..]));
      MarksInsert(x, l[1..]);
      assert Marks(l)[1..] == Marks(l[1..]);
    }
    MarksOne(x, l);
  }

  lemma {:induction false} MarksSort<V>(l: seq<Item<V>>)
    ensures Marks(Sort(l)) == Sort(Marks(l))
  {
    if l != [] {
      MarksSort(l[1..]);
      MarksInsert(l[0], Sort(l[1..]));
      assert Marks(l)[1..] == Marks(l[1..]);
    }
  }

  lemma {:induction false} MarksOnly<V(!new)>(l: seq<Item<V>>, index: bool)
    ensures Marks(Only(l, index)) == Only(Marks(l), index)
  {
    if l != [] {
      MarksOnly(l[1..], index);
      MarksOne(l[0], Only(l[1..], index));
      assert Marks(l)[1..] == Marks(l[1..]);
    }
  }

  lemma MarksConcat<V>(a: seq<Item<V>>, b: seq<Item<V>>)
    ensures Marks(a + b) == Marks(a) + Marks(b)
  {
  }

  lemma MarksOwnOrder<V(!new)>(l: seq<Item<V>>)
    ensures Marks(OwnOrder(l)) == OwnOrder(Marks(l))
  {
    MarksOnly(l, true);
    MarksOnly(l, false);
    MarksSort(Only(l, true));
    MarksConcat(Sort(Only(l, true)), Only(l, false));
  }

  lemma {:induction false} OnlyAppend<V(!new)>(a: seq<Item<V>>, b: seq<Item<V>>, index: bool)
    ensures Only(a + b, index) == Only(a, index) + Only(b, index)
  {
    if a == [] {
      SumCons([], a, b);
      assert a + b == b;
    } else {
      var x, tail := a[0], a[1..];
      var rest := tail + b;
      assert a == [x] + tail;
      SumCons([x], tail, b);
      OnlyAppend(tail, b, index);
      OnlyCons(x, tail, index);
      OnlyCons(x, rest, index);
      SumCons([x], Only(tail, index), Only(b, index));
    }
  }

  lemma {:induction false} OnlyNone<V(!new)>(l: seq<Item<V>>, index: bool)
    requires forall x :: x in l ==> IsIndex(x.key) != index
    ensures Only(l, index) == []
  {
    if l != [] {
      assert l[0] in l;
      OnlyNone(l[1..], index);
    }
  }

  lemma {:induction false} OnlyTwice<V(!new)>(l: seq<Item<V>>, index: bool)
    ensures Only(Only(l, index), index) == Only(l, index)
  {
    if l != [] {
      OnlyTwice(l[1..], index);
      OnlyCons(l[0], Only(l[1..], index), index);
    }
  }

  /** Ordering first does not change the order after one more open. */
  lemma {:induction false} OrderOnce<V(!new)>(r: seq<Item<V>>, x: Item<V>, gone: string)
    requires Distinct(r) && (gone == x.key || !HasKey(r, x.key))
    ensures OwnOrder([x] + Without(OwnOrder(r), gone)) == OwnOrder([x] + Without(r, gone))
  {
    var o := OwnOrder(r);
    OwnOrderHas(r);
    OwnOrderDistinct(r);
    PlainPart(r, x, gone);
    WithoutHas(o, gone);
    WithoutHas(r, gone);
    if HasKey(o, x.key) {
      var k :| 0 <= k < |o| && o[k].key == x.key;
      assert o[k] in r;
    }
    FrontDistinct(o, x, gone);
    FrontDistinct(r, x, gone);
    SameIndexes([x] + Without(o, gone), [x] + Without(r, gone));
  }

  lemma {:induction false} FrontDistinct<V(!new)>(l: seq<Item<V>>, x: Item<V>, gone: string)
    requires Distinct(l) && (gone == x.key || !HasKey(l, x.key))
    ensures Distinct([x] + Without(l, gone))
  {
    DistinctWithout(l, gone);
    var rest := Without(l, gone);
    forall k | 0 <= k < |rest| ensures rest[k].key != x.key {
      WithoutHas(l, gone);
      assert rest[k] in rest;
    }
  }

  lemma {:induction false} PlainPart<V(!new)>(r: seq<Item<V>>, x: Item<V>, gone: string)
    ensures Only([x] + Without(OwnOrder(r), gone), false) == Only([x] + Without(r, gone), false)
  {
    var o := OwnOrder(r);
    OnlyCons(x, Without(o, gone), false);
    OnlyCons(x, Without(r, gone), false);
    OnlyWithout(o, false, gone);
    OnlyWithout(r, false, gone);
    var i, p := Sort(Only(r, true)), Only(r, false);
    SortHas(Only(r, true));
    OnlyHas(r, true);
    OnlyAppend(i, p, false);
    OnlyNone(i, false);
    OnlyTwice(r, false);
    assert [] + Only(p, false) == Only(p, false);
  }

  lemma {:induction false} SameIndexes<V(!new)>(a: seq<Item<V>>, b: seq<Item<V>>)
    requires Distinct(a) && Distinct(b) && forall x :: x in a <==> x in b
    ensures Sort(Only(a, true)) == Sort(Only(b, true))
  {
    OnlyHas(a, true);
    OnlyHas(b, true);
    OnlyDistinct(a, true);
    OnlyDistinct(b, true);
    SortHas(Only(a, true));
    SortHas(Only(b, true));
    SortAscends(Only(a, true));
    SortAscends(Only(b, true));
    AscendingUnique(Sort(Only(a, true)), Sort(Only(b, true)));
  }

  /** The scopes in order of last use, newest first. */
  function LastUsed(h: History): seq<Item<()>> {
    Dedup(Reversed(Marks(h)))
  }

  lemma LastUsedNext(h: History)
    requires h != []
    ensures
      var n := |h| - 1;
      LastUsed(h) == [Item(h[n].key, ())] + Without(LastUsed(h[..n]), h[n].key)
    ensures Distinct(LastUsed(h)) && Distinct(LastUsed(h[..|h| - 1]))
  {
    var n := |h| - 1;
    assert Marks(h)[..n] == Marks(h[..n]);
    assert Reversed(Marks(h))[1..] == Reversed(Marks(h[..n]));
    DedupDistinct(Reversed(Marks(h)));
    DedupDistinct(Reversed(Marks(h[..n])));
  }

  lemma {:induction false} OnlyLast<V(!new)>(l: seq<Item<V>>, index: bool)
    requires l != [] && IsIndex(l[|l| - 1].key) == index
    ensures Only(l, index) != [] && Only(l, index)[|Only(l, index)| - 1] == l[|l| - 1]
  {
    if |l| > 1 { OnlyLast(l[1..], index); }
  }

  /** The least recently used key is not an array index, or all are and it is the
      largest. */
  ghost predicate OldestLast<V(!new)>(r: seq<Item<V>>)
    requires r != []
  {
    var last := r[|r| - 1];
    !IsIndex(last.key) || forall x :: x in r ==> IsIndex(x.key) && Decimal(x.key) <= Decimal(last.key)
  }

  /** Exactly then an object lists it last. */
  lemma LastInOrder<V(!new)>(r: seq<Item<V>>)
    requires r != [] && Distinct(r)
    ensures |OwnOrder(r)| == |r| && (OwnOrder(r)[|r| - 1].key == r[|r| - 1].key <==> OldestLast(r))
  {
    OwnOrderHas(r);
    if Only(r, false) != [] { SomePlain(r); } else { NonePlain(r); }
  }

  lemma LastOfSum<T>(a: seq<T>, b: seq<T>)
    requires b != []
    ensures (a + b)[|a + b| - 1] == b[|b| - 1]
  {
  }

  /** With a key that is no array index, the last one is the last of those. */
  lemma {:induction false} PlainLast<V(!new)>(r: seq<Item<V>>) returns (last: Item<V>)
    requires Only(r, false) != []
    ensures |OwnOrder(r)| == |r| && r != [] && OwnOrder(r)[|r| - 1] == last
    ensures last in r && !IsIndex(last.key)
    ensures !IsIndex(r[|r| - 1].key) ==> last == r[|r| - 1]
  {
    var p := Only(r, false);
    last := p[|p| - 1];
    OwnOrderHas(r);
    LastOfSum(Sort(Only(r, true)), p);
    assert last in p;
    OnlyHas(r, false);
    if !IsIndex(r[|r| - 1].key) { OnlyLast(r, false); }
  }

  lemma {:induction false} SomePlain<V(!new)>(r: seq<Item<V>>)
    requires Only(r, false) != []
    ensures |OwnOrder(r)| == |r| && r != [] && exists x :: x in r && !IsIndex(x.key)
    ensures OwnOrder(r)[|r| - 1].key == r[|r| - 1].key <==> !IsIndex(r[|r| - 1].key)
  {
    var last := PlainLast(r);
    assert last in r && !IsIndex(last.key);
  }

  lemma {:induction false} NonePlain<V(!new)>(r: seq<Item<V>>)
    requires r != [] && Distinct(r) && Only(r, false) == []
    ensures
      var last := r[|r| - 1];
      |OwnOrder(r)| == |r| &&
      (OwnOrder(r)[|r| - 1].key == last.key <==>
         forall x :: x in r ==> IsIndex(x.key) && Decimal(x.key) <= Decimal(last.key))
    ensures IsIndex(r[|r| - 1].key)
  {
    var i := Sort(Only(r, true));
    OwnOrderHas(r);
    OnlyHas(r, true);
    OnlyHas(r, false);
    OnlyDistinct(r, true);
    SortHas(Only(r, true));
    SortAscends(Only(r, true));
    assert OwnOrder(r) == i;
    assert r[|r| - 1] in r;
    AllIndexes(r, i);
  }

  lemma AllIndexes<V(!new)>(r: seq<Item<V>>, i: seq<Item<V>>)
    requires r != [] && Distinct(r) && Ascending(i) && i != []
    requires forall x :: x in i <==> x in r && IsIndex(x.key)
    requires forall x :: x in r ==> IsIndex(x.key)
    ensures
      var last := r[|r| - 1];
      i[|i| - 1].key == last.key <==> forall x :: x in r ==> IsIndex(x.key) && Decimal(x.key) <= Decimal(last.key)
  {
    var last := r[|r| - 1];
    assert last in r && last in i && i[|i| - 1] in i;
    forall x | x in r ensures Decimal(x.key) <= Decimal(i[|i| - 1].key) {
      var k :| 0 <= k < |i| && i[k] == x;
    }
    if forall x :: x in r ==> Decimal(x.key) <= Decimal(last.key) {
      assert Decimal(i[|i| - 1].key) <= Decimal(last.key);
      DecimalInjective(i[|i| - 1].key, last.key);
    }
  }

  // --- Which scopes are lost --------------------------------------------------------------------------

  /** The sixteen scopes used most recently, newest first. */
  function Latest(h: History): (r: seq<Item<()>>)
    ensures |r| <= 16
  {
    Take(LastUsed(h), 16)
  }

  /** The store has exactly the sixteen scopes used most recently. */
  ghost predicate KeepsLatest(h: History) {
    Keys(Shown(h)) == Keys(Latest(h))
  }

  /** And lists them by last use, but for array indexes. */
  ghost predicate ListsLatest(h: History) {
    Marks(Shown(h)) == OwnOrder(Latest(h))
  }

  /** When open `i` brings a new scope to a full store, the one used least recently
      is listed last. */
  ghost predicate SafeAt(h: History, i: nat)
    requires i < |h|
  {
    var used := Latest(h[..i]);
    |used| == MAX_RECENT_SCOPES && !HasKey(used, h[i].key) ==> OldestLast(used)
  }

  lemma LatestNext(h: History)
    requires h != []
    ensures
      var n := |h| - 1;
      var mark, used := Item(h[n].key, ()), Latest(h[..n]);
      && Distinct(used)
      && Latest(h) == [mark] + Take(Without(used, mark.key), MAX_RECENT_SCOPES - 1)
      && (HasKey(used, mark.key) || |used| < MAX_RECENT_SCOPES ==> Latest(h) == [mark] + Without(used, mark.key))
      && (|used| == MAX_RECENT_SCOPES && !HasKey(used, mark.key) ==>
            Latest(h) == [mark] + used[..MAX_RECENT_SCOPES - 1])
  {
    var n := |h| - 1;
    var mark, used := Item(h[n].key, ()), Latest(h[..n]);
    LastUsedNext(h);
    TakeCons(mark, Without(LastUsed(h[..n]), mark.key), MAX_RECENT_SCOPES);
    WithoutTake(LastUsed(h[..n]), mark.key, MAX_RECENT_SCOPES - 1);
    WithoutSize(used, mark.key);
    if !HasKey(used, mark.key) { WithoutNone(used, mark.key); }
  }

  lemma MarksPushed(h: History)
    requires h != [] && AllValid(h) && ListsLatest(h[..|h| - 1])
    ensures
      var n := |h| - 1;
      Marks(Shown(h)) == OwnOrder(Push(OwnOrder(Latest(h[..n])), Item(h[n].key, ()), MAX_RECENT_SCOPES))
  {
    var n := |h| - 1;
    var l := Shown(h[..n]);
    ShownNext(h);
    var x := Item(h[n].key, Push(Lookup(l, h[n].key), h[n].value, RECENT_APPS_PER_SCOPE));
    MarksPush(l, x, MAX_RECENT_SCOPES);
    MarksOwnOrder(Push(l, x, MAX_RECENT_SCOPES));
  }

  /** Pushing onto the listed scopes. */
  lemma {:induction false} PushListed(used: seq<Item<()>>, mark: Item<()>)
    requires Distinct(used) && |used| <= MAX_RECENT_SCOPES
    ensures |OwnOrder(used)| == |used|
    ensures Push(OwnOrder(used), mark, MAX_RECENT_SCOPES) ==
      if HasKey(used, mark.key) || |used| < MAX_RECENT_SCOPES
      then [mark] + Without(OwnOrder(used), mark.key)
      else [mark] + OwnOrder(used)[..MAX_RECENT_SCOPES - 1]
  {
    OwnOrderHas(used);
    OwnOrderDistinct(used);
    SameHasKey(OwnOrder(used), used, mark.key);
    PushCases(OwnOrder(used), mark, MAX_RECENT_SCOPES);
  }

  lemma SameHasKey<V(!new)>(a: seq<Item<V>>, b: seq<Item<V>>, key: string)
    requires forall x :: x in a <==> x in b
    ensures HasKey(a, key) <==> HasKey(b, key)
  {
    if HasKey(a, key) {
      var k :| 0 <= k < |a| && a[k].key == key;
      assert a[k] in b;
    }
    if HasKey(b, key) {
      var k :| 0 <= k < |b| && b[k].key == key;
      assert b[k] in a;
    }
  }

  lemma {:induction false} WithoutLast<V(!new)>(l: seq<Item<V>>)
    requires l != [] && Distinct(l)
    ensures Without(l, l[|l| - 1].key) == l[..|l| - 1]
  {
    var n := |l| - 1;
    assert l == l[..n] + [l[n]];
    WithoutAppend(l[..n], l[n], l[n].key);
    WithoutNone(l[..n], l[n].key);
  }

  /** A safe open keeps the order. */
  lemma {:induction false} ListsNext(h: History)
    requires h != [] && AllValid(h) && ListsLatest(h[..|h| - 1]) && SafeAt(h, |h| - 1)
    ensures ListsLatest(h)
  {
    var n := |h| - 1;
    var mark, used := Item(h[n].key, ()), Latest(h[..n]);
    LatestNext(h);
    MarksPushed(h);
    PushListed(used, mark);
    if HasKey(used, mark.key) || |used| < MAX_RECENT_SCOPES {
      OrderOnce(used, mark, mark.key);
    } else {
      OwnOrderDistinct(used);
      LastInOrder(used);
      WithoutLast(used);
      WithoutLast(OwnOrder(used));
      OrderOnce(used, mark, used[|used| - 1].key);
    }
  }

  lemma NotLastStays<T>(l: seq<T>, x: T, front: T)
    requires x in l && l[|l| - 1] != x
    ensures x in [front] + l[..|l| - 1]
  {
    var k :| 0 <= k < |l| && l[k] == x;
    assert ([front] + l[..|l| - 1])[k + 1] == x;
  }

  /** What is not listed last stays in the object. */
  lemma {:induction false} OldestStays(used: seq<Item<()>>, mark: Item<()>)
    requires used != [] && Distinct(used) && !OldestLast(used)
    ensures |OwnOrder(used)| == |used|
    ensures used[|used| - 1] in OwnOrder([mark] + OwnOrder(used)[..|used| - 1])
  {
    var o, oldest := OwnOrder(used), used[|used| - 1];
    LastInOrder(used);
    assert oldest in o by { OwnOrderHas(used); }
    NotLastStays(o, oldest, mark);
    OwnOrderHas([mark] + o[..|used| - 1]);
  }

  /** An unsafe one loses another scope than the least recently used. */
  lemma {:induction false} LosesAnother(h: History)
    requires h != [] && AllValid(h) && ListsLatest(h[..|h| - 1]) && !SafeAt(h, |h| - 1)
    ensures
      var used := Latest(h[..|h| - 1]);
      && |used| == MAX_RECENT_SCOPES
      && used[MAX_RECENT_SCOPES - 1].key in Keys(Shown(h))
      && used[MAX_RECENT_SCOPES - 1].key !in Keys(Latest(h))
  {
    var n := |h| - 1;
    var mark, used := Item(h[n].key, ()), Latest(h[..n]);
    var oldest := used[MAX_RECENT_SCOPES - 1];
    LatestNext(h);
    MarksPushed(h);
    PushListed(used, mark);
    OldestStays(used, mark);
    InMarks(Shown(h), oldest);
    NotAmongOthers(used, mark);
  }

  lemma NotAmongOthers(used: seq<Item<()>>, mark: Item<()>)
    requires used != [] && Distinct(used) && !HasKey(used, mark.key)
    ensures used[|used| - 1].key !in Keys([mark] + used[..|used| - 1])
  {
  }

  lemma InMarks<V(!new)>(l: seq<Item<V>>, mark: Item<()>)
    requires mark in Marks(l)
    ensures mark.key in Keys(l)
  {
    var k :| 0 <= k < |l| && Marks(l)[k] == mark;
    assert l[k].key == mark.key;
  }

  lemma MarksKeys<V(!new)>(l: seq<Item<V>>)
    ensures Keys(Marks(l)) == Keys(l)
  {
    forall k | 0 <= k < |l| ensures Marks(l)[k].key in Keys(l) && l[k].key in Keys(Marks(l)) {
      assert Marks(l)[k].key == l[k].key;
    }
  }

  lemma ListedIsKept(h: History)
    requires ListsLatest(h)
    ensures KeepsLatest(h)
  {
    MarksKeys(Shown(h));
    OwnOrderHas(Latest(h));
    SameKeys(OwnOrder(Latest(h)), Latest(h));
  }

  ghost predicate AllSafe(h: History) {
    forall i :: 0 <= i < |h| ==> SafeAt(h, i)
  }

  ghost predicate AlwaysKeepsLatest(h: History) {
    forall i :: 0 <= i <= |h| ==> KeepsLatest(h[..i])
  }

  /** After every open the store has exactly the sixteen scopes used most recently,
      exactly when every new scope found a full store safe; they are then in order of
      last use, but for array indexes. */
  lemma KeepsLatestIff(h: History)
    requires AllValid(h)
    ensures AlwaysKeepsLatest(h) <==> AllSafe(h)
    ensures AllSafe(h) ==> ListsLatest(h)
  {
    if AllSafe(h) { SafeKeeps(h); }
    if AlwaysKeepsLatest(h) {
      forall i | 0 <= i < |h| ensures SafeAt(h, i) { KeptSoFar(h, i + 1); }
    }
  }

  lemma SafeKeeps(h: History)
    requires AllValid(h) && AllSafe(h)
    ensures AlwaysKeepsLatest(h) && ListsLatest(h)
  {
    forall i | 0 <= i <= |h| ensures KeepsLatest(h[..i]) {
      SafeSoFar(h, i);
      ListedIsKept(h[..i]);
    }
    SafeSoFar(h, |h|);
    assert h[..|h|] == h;
  }

  lemma SafeInPrefix(h: History, n: nat)
    requires 0 < n <= |h|
    ensures h[..n][..n - 1] == h[..n - 1] && SafeAt(h, n - 1) == SafeAt(h[..n], n - 1)
  {
    assert h[..n][..n - 1] == h[..n - 1];
    assert h[..n][n - 1] == h[n - 1];
  }

  lemma NothingListed(h: History)
    requires h == []
    ensures ListsLatest(h)
  {
    assert Shown(h) == [] && Marks(h) == [];
  }

  lemma {:induction false} SafeSoFar(h: History, n: nat)
    requires AllValid(h) && n <= |h| && forall i :: 0 <= i < n ==> SafeAt(h, i)
    ensures ListsLatest(h[..n])
  {
    if n > 0 {
      SafeSoFar(h, n - 1);
      SafeInPrefix(h, n);
      ListsNext(h[..n]);
    } else {
      NothingListed(h[..0]);
    }
  }

  lemma {:induction false} KeptSoFar(h: History, n: nat)
    requires AllValid(h) && n <= |h| && AlwaysKeepsLatest(h)
    ensures ListsLatest(h[..n]) && (n > 0 ==> SafeAt(h, n - 1))
  {
    if n > 0 {
      KeptSoFar(h, n - 1);
      SafeInPrefix(h, n);
      assert KeepsLatest(h[..n]);
      if !SafeAt(h, n - 1) { LosesAnother(h[..n]); }
      ListsNext(h[..n]);
    } else {
      NothingListed(h[..0]);
    }
  }

  /** A full store in that order loses the least recently used scope to a new one
      exactly when that scope is listed last. */
  lemma LosesLeastRecentIff(h: History, scope: string)
    requires AllValid(h) && ListsLatest(h)
    requires |Latest(h)| == MAX_RECENT_SCOPES && !HasKey(Latest(h), scope)
    ensures Lost(Shown(h), scope) == Some(Latest(h)[MAX_RECENT_SCOPES - 1].key) <==> OldestLast(Latest(h))
  {
    var l, used := Shown(h), Latest(h);
    DedupDistinct(Reversed(Marks(h)));
    OwnOrderHas(used);
    LastInOrder(used);
    SameHasKey(OwnOrder(used), used, scope);
    forall k | 0 <= k < |l| ensures l[k].key != scope {
      assert Marks(l)[k].key == l[k].key;
    }
    assert Marks(l)[15].key == l[15].key;
  }

  lemma {:induction false} ReversedHas<T(!new)>(l: seq<T>)
    ensures |Reversed(l)| == |l| && forall x :: x in Reversed(l) ==> x in l
  {
    if l != [] { ReversedHas(l[..|l| - 1]); }
  }

  lemma LatestFromHistory(h: History)
    requires NoIndexes(h)
    ensures forall x :: x in Latest(h) ==> !IsIndex(x.key)
  {
    DedupDistinct(Reversed(Marks(h)));
    ReversedHas(Marks(h));
    forall x | x in Latest(h) ensures !IsIndex(x.key) {
      assert x in LastUsed(h) && x in Marks(h);
      var k :| 0 <= k < |h| && Marks(h)[k] == x;
      assert h[k].key == x.key;
    }
  }

  /** Unless a scope reads as an array index, the scopes kept are the sixteen most
      recently used, in that order: a seventeenth loses exactly the least recently
      used one. */
  lemma KeepsMostRecent(h: History)
    requires AllValid(h) && NoIndexes(h)
    ensures Marks(Shown(h)) == Latest(h)
  {
    forall i | 0 <= i < |h| ensures SafeAt(h, i) {
      LatestFromHistory(h[..i]);
      var used := Latest(h[..i]);
      assert used != [] ==> used[|used| - 1] in used;
    }
    KeepsLatestIff(h);
    LatestFromHistory(h);
    PlainOrder(Latest(h));
  }

  // --- The scopes the app uses --------------------------------------------------------------------------

  lemma {:induction false} DecimalAtLeast(s: string)
    requires s != [] && (forall k :: 0 <= k < |s| ==> Digit(s[k])) && s[0] != '0'
    ensures Decimal(s) >= TenTo(|s| - 1)
  {
    if |s| > 1 { DecimalAtLeast(s[..|s| - 1]); }
  }

  function TenTo(k: nat): nat {
    if k == 0 then 1 else 10 * TenTo(k - 1)
  }

  lemma {:induction false} TenToGrows(k: nat)
    requires k >= 10
    ensures TenTo(k) >= 10_000_000_000
  {
    if k > 10 {
      TenToGrows(k - 1);
    } else {
      assert TenTo(5) == 100_000;
    }
  }

  lemma LongIsNoIndex(s: string)
    requires |s| > 10
    ensures !IsIndex(s)
  {
    if IsIndex(s) {
      DecimalAtLeast(s);
      TenToGrows(|s| - 1);
    }
  }

  /** The app's scopes are 64 digits of base 16, so its store always has the sixteen
      scopes used most recently, newest first. */
  lemma AppKeepsMostRecent(h: History)
    requires forall k :: 0 <= k < |h| ==> |h[k].key| == 64 && 1 <= |h[k].value.key| <= 512
    ensures Marks(Shown(h)) == Latest(h)
  {
    forall k | 0 <= k < |h| ensures !IsIndex(h[k].key) && ValidOpen(h[k]) { LongIsNoIndex(h[k].key); }
    KeepsMostRecent(h);
  }

  // --- A history that loses the wrong scope --------------------------------------------------------------

  /** "7", then others that are no array index. */
  function ScopeNo(i: nat): string {
    if i == 0 then "7" else seq(i, _ => 's')
  }

  function Opens(n: nat): (h: History)
    ensures |h| == n && forall i :: 0 <= i < n ==> h[i].key == ScopeNo(i) && h[i].value == Item("app", "")
  {
    seq(n, i requires 0 <= i < n => Item(ScopeNo(i), Item("app", "")))
  }

  lemma {:induction false} ReversedAt<T>(l: seq<T>, k: nat)
    requires k < |l|
    ensures |Reversed(l)| == |l| && Reversed(l)[k] == l[|l| - 1 - k]
  {
    if k > 0 { ReversedAt(l[..|l| - 1], k - 1); } else if |l| > 1 { ReversedAt(l[..|l| - 1], 0); }
  }

  lemma OpensLatest(n: nat)
    requires n <= MAX_RECENT_SCOPES
    ensures |Latest(Opens(n))| == n
    ensures forall k :: 0 <= k < n ==> Latest(Opens(n))[k].key == ScopeNo(n - 1 - k)
  {
    var marks := Marks(Opens(n));
    forall k | 0 <= k < n ensures |Reversed(marks)| == n && Reversed(marks)[k].key == ScopeNo(n - 1 - k) {
      ReversedAt(marks, k);
    }
    ReversedHas(marks);
    forall i, j | 0 <= i < j < n ensures ScopeNo(i) != ScopeNo(j) {
      if i == 0 { assert ScopeNo(i)[0] == '7' && ScopeNo(j)[0] == 's'; }
      else { assert |ScopeNo(i)| == i && |ScopeNo(j)| == j; }
    }
    DedupOf(Reversed(marks));
  }

  lemma OpensSafe(h: History)
    requires h == Opens(MAX_RECENT_SCOPES + 1)
    ensures forall i :: 0 <= i < MAX_RECENT_SCOPES ==> SafeAt(h, i)
  {
    forall i | 0 <= i < MAX_RECENT_SCOPES ensures SafeAt(h, i) {
      assert h[..i] == Opens(i);
      OpensLatest(i);
    }
  }

  lemma OpensUnsafe()
    ensures !SafeAt(Opens(MAX_RECENT_SCOPES + 1), MAX_RECENT_SCOPES)
    ensures
      var used := Latest(Opens(MAX_RECENT_SCOPES + 1)[..MAX_RECENT_SCOPES]);
      |used| == MAX_RECENT_SCOPES && used[MAX_RECENT_SCOPES - 1].key == "7"
  {
    var n := MAX_RECENT_SCOPES;
    var h := Opens(n + 1);
    assert h[..n] == Opens(n);
    OpensLatest(n);
    var used := Latest(h[..n]);
    forall k | 0 <= k < n ensures used[k].key != h[n].key {
      assert used[k].key == ScopeNo(n - 1 - k) && |ScopeNo(n - 1 - k)| < n == |ScopeNo(n)|;
    }
    assert !HasKey(used, h[n].key);
    SevenIsIndex(used);
  }

  lemma SevenIsIndex(used: seq<Item<()>>)
    requires |used| > 1 && used[|used| - 1].key == "7"
    requires used[0].key != [] && used[0].key[0] == 's'
    ensures !OldestLast(used)
  {
    assert Decimal("7") == 7;
    assert used[0] in used && !IsIndex(used[0].key);
  }

  /** Sixteen scopes, "7" the first of them, then a seventeenth: "7" stays although
      it is the least recently used. */
  lemma LosesAnotherExample()
    ensures
      var h := Opens(MAX_RECENT_SCOPES + 1);
      && AllValid(h) && ListsLatest(h[..MAX_RECENT_SCOPES])
      && |Latest(h[..MAX_RECENT_SCOPES])| == MAX_RECENT_SCOPES
      && Latest(h[..MAX_RECENT_SCOPES])[MAX_RECENT_SCOPES - 1].key == "7"
      && "7" in Keys(Shown(h)) && "7" !in Keys(Latest(h)) && !KeepsLatest(h)
  {
    var h := Opens(MAX_RECENT_SCOPES + 1);
    OpensSafe(h);
    SafeSoFar(h, MAX_RECENT_SCOPES);
    OpensUnsafe();
    assert h[..|h| - 1] == h[..MAX_RECENT_SCOPES];
    LosesAnother(h);
  }
}
