/** Python's ordering of strings, and what `sorted` does with it.

    Identifiers and rack names are compared by code point, so the order is
    lexicographic.  `sorted` of a list is a stable sort by a string key;
    `sorted` of a set or of dictionary keys is the one strictly increasing
    listing of that set. */
module Order {
  datatype Option<+T> = None | Some(value: T)
  datatype Result<+T> = Ok(value: T) | ValueError

  // ----- lexicographic order ------------------------------------------------

  predicate Less(a: string, b: string) {
    if b == "" then false
    else if a == "" then true
    else if a[0] != b[0] then a[0] < b[0]
    else Less(a[1..], b[1..])
  }

  predicate LessPair(a: (string, string), b: (string, string)) {
    Less(a.0, b.0) || (a.0 == b.0 && Less(a.1, b.1))
  }

  ghost predicate StrictOrder<T(!new)>(lt: (T, T) -> bool) {
    && (forall x :: !lt(x, x))
    && (forall x, y, z :: lt(x, y) && lt(y, z) ==> lt(x, z))
    && (forall x, y :: x == y || lt(x, y) || lt(y, x))
  }

  lemma {:induction false} LessIrreflexive(a: string)
    ensures !Less(a, a)
  {
    if a != "" { LessIrreflexive(a[1..]); }
  }

  lemma {:induction false} LessTransitive(a: string, b: string, c: string)
    requires Less(a, b) && Less(b, c)
    ensures Less(a, c)
  {
    if a != "" && a[0] == b[0] == c[0] { LessTransitive(a[1..], b[1..], c[1..]); }
  }

  /** The strings agree before position `k` and differ there. */
  predicate DifferFirst(a: string, b: string, k: nat) {
    k < |a| && k < |b| && a[..k] == b[..k] && a[k] != b[k]
  }

  lemma LessAsymmetric(a: string, b: string)
    requires Less(a, b)
    ensures !Less(b, a)
  {
    if Less(b, a) {
      LessTransitive(a, b, a);
      LessIrreflexive(a);
    }
  }

  lemma {:induction false} LessPrefix(a: string, b: string)
    requires a < b
    ensures Less(a, b)
  {
    if a != "" { LessPrefix(a[1..], b[1..]); }
  }

  lemma {:induction false} LessAtDifference(a: string, b: string, k: nat)
    requires DifferFirst(a, b, k)
    ensures Less(a, b) <==> a[k] as int < b[k] as int
  {
    if k > 0 {
      assert a[..k][0] == b[..k][0];
      assert a[1..][..k - 1] == a[..k][1..] && b[1..][..k - 1] == b[..k][1..];
      LessAtDifference(a[1..], b[1..], k - 1);
    }
  }

  lemma {:induction false} FirstDifference(a: string, b: string) returns (k: nat)
    requires a != b && !(a < b) && !(b < a)
    ensures DifferFirst(a, b, k)
  {
    if a[0] != b[0] {
      k := 0;
    } else {
      assert a == [a[0]] + a[1..] && b == [b[0]] + b[1..];
      k := FirstDifference(a[1..], b[1..]);
      assert a[..k + 1] == [a[0]] + a[1..][..k] && b[..k + 1] == [b[0]] + b[1..][..k];
      k := k + 1;
    }
  }

  /** The smaller string is a proper prefix of the other, or has the smaller
      code point at the first position where they differ. */
  lemma LessMeaning(a: string, b: string)
    ensures Less(a, b) <==>
      a < b || exists k: nat :: DifferFirst(a, b, k) && a[k] as int < b[k] as int
  {
    LessIrreflexive(a);
    if a < b {
      LessPrefix(a, b);
    } else if b < a {
      LessPrefix(b, a);
      LessAsymmetric(b, a);
      assert forall k: nat :: k < |b| ==> a[..k + 1][k] == b[k];
    } else if a != b {
      var k := FirstDifference(a, b);
      LessAtDifference(a, b, k);
      forall l: nat | DifferFirst(a, b, l) ensures Less(a, b) <==> a[l] as int < b[l] as int {
        LessAtDifference(a, b, l);
      }
    }
  }

  lemma AtMostTransitive(a: string, b: string, c: string)
    requires !Less(b, a) && !Less(c, b)
    ensures !Less(c, a)
  {
    LessTotal(a, b);
    LessTotal(b, c);
    if Less(a, b) && Less(b, c) { LessTransitive(a, b, c); }
    if Less(c, a) { LessAsymmetric(c, a); }
  }

  lemma {:induction false} LessTotal(a: string, b: string)
    ensures a == b || Less(a, b) || Less(b, a)
  {
    if a != "" && b != "" && a[0] == b[0] {
      LessTotal(a[1..], b[1..]);
      assert a == [a[0]] + a[1..] && b == [b[0]] + b[1..];
    }
  }

  lemma LessIsStrictOrder()
    ensures StrictOrder(Less)
  {
    forall x ensures !Less(x, x) { LessIrreflexive(x); }
    forall x, y, z | Less(x, y) && Less(y, z) ensures Less(x, z) { LessTransitive(x, y, z); }
    forall x, y ensures x == y || Less(x, y) || Less(y, x) { LessTotal(x, y); }
  }

  lemma LessPairIsStrictOrder()
    ensures StrictOrder(LessPair)
  {
    LessIsStrictOrder();
    forall x, y, z | LessPair(x, y) && LessPair(y, z) ensures LessPair(x, z) {
      if Less(x.0, y.0) && Less(y.0, z.0) { LessTransitive(x.0, y.0, z.0); }
      else if x.0 == y.0 && y.0 == z.0 { LessTransitive(x.1, y.1, z.1); }
    }
    forall x: (string, string) ensures !LessPair(x, x) { LessIrreflexive(x.0); LessIrreflexive(x.1); }
    forall x: (string, string), y: (string, string) ensures x == y || LessPair(x, y) || LessPair(y, x) {
      LessTotal(x.0, y.0);
      LessTotal(x.1, y.1);
    }
  }

  // ----- sorted(list, key=...) ----------------------------------------------

  function InsertBy<T>(key: T -> string, x: T, s: seq<T>): seq<T> {
    if s == [] then [x]
    else if Less(key(s[0]), key(x)) then [s[0]] + InsertBy(key, x, s[1..])
    else [x] + s
  }

  function SortBy<T>(key: T -> string, s: seq<T>): seq<T> {
    if s == [] then [] else InsertBy(key, s[0], SortBy(key, s[1..]))
  }

  /** Keys never decrease along the sequence. */
  ghost predicate SortedBy<T>(key: T -> string, s: seq<T>) {
    forall i, j :: 0 <= i < j < |s| ==> !Less(key(s[j]), key(s[i]))
  }

  lemma {:induction false} InsertByElements<T>(key: T -> string, x: T, s: seq<T>)
    ensures multiset(InsertBy(key, x, s)) == multiset(s) + multiset{x}
    ensures forall y :: y in InsertBy(key, x, s) <==> y in s || y == x
  {
    if s != [] {
      InsertByElements(key, x, s[1..]);
      assert s == [s[0]] + s[1..];
    }
  }

  lemma InsertBySorted<T>(key: T -> string, x: T, s: seq<T>)
    requires SortedBy(key, s)
    ensures SortedBy(key, InsertBy(key, x, s))
    decreases |s|
  {
    if s != [] && Less(key(s[0]), key(x)) {
      var r := InsertBy(key, x, s[1..]);
      InsertBySorted(key, x, s[1..]);
      forall j | 0 <= j < |r| ensures !Less(key(r[j]), key(s[0])) {
        InsertByFrom(key, x, s[1..], j);
        if r[j] == x { LessAsymmetric(key(s[0]), key(x)); }
      }
    } else if s != [] {
      forall j | 0 <= j < |s| ensures !Less(key(s[j]), key(x)) {
        if j > 0 { AtMostTransitive(key(x), key(s[0]), key(s[j])); }
      }
    }
  }

  lemma InsertByFrom<T>(key: T -> string, x: T, s: seq<T>, j: nat)
    requires j < |InsertBy(key, x, s)|
    ensures InsertBy(key, x, s)[j] == x || exists i :: 0 <= i < |s| && s[i] == InsertBy(key, x, s)[j]
  {
    var y := InsertBy(key, x, s)[j];
    InsertByElements(key, x, s);
    assert y in InsertBy(key, x, s);
    assert y in multiset(s) + multiset{x};
  }

  lemma {:induction false} SortByCorrect<T>(key: T -> string, s: seq<T>)
    ensures SortedBy(key, SortBy(key, s))
    ensures multiset(SortBy(key, s)) == multiset(s)
  {
    if s != [] {
      SortByCorrect(key, s[1..]);
      InsertBySorted(key, s[0], SortBy(key, s[1..]));
      InsertByElements(key, s[0], SortBy(key, s[1..]));
      assert s == [s[0]] + s[1..];
    }
  }

  lemma SortByElements<T>(key: T -> string, s: seq<T>)
    ensures |SortBy(key, s)| == |s|
    ensures forall x :: x in SortBy(key, s) <==> x in s
  {
    SortByCorrect(key, s);
    assert |multiset(SortBy(key, s))| == |multiset(s)|;
    forall x ensures x in SortBy(key, s) <==> x in s {
      assert x in SortBy(key, s) <==> x in multiset(SortBy(key, s));
      assert x in s <==> x in multiset(s);
    }
  }

  lemma SortedHead<T>(key: T -> string, a: seq<T>, b: seq<T>)
    requires SortedBy(key, a) && SortedBy(key, b) && a != [] && b != []
    requires a[0] in b && b[0] in a
    ensures key(a[0]) == key(b[0])
  {
    var i :| 0 <= i < |b| && b[i] == a[0];
    var j :| 0 <= j < |a| && a[j] == b[0];
    LessTotal(key(a[0]), key(b[0]));
    LessIrreflexive(key(a[0]));
    assert i > 0 ==> !Less(key(b[i]), key(b[0]));
    assert j > 0 ==> !Less(key(a[j]), key(a[0]));
  }

  lemma SortByMember<T>(key: T -> string, s: seq<T>, x: T)
    ensures x in SortBy(key, s) <==> x in s
  {
    SortByElements(key, s);
  }

  /** Different elements of the list have different keys. */
  ghost predicate DistinctKeys<T>(key: T -> string, s: seq<T>) {
    forall x, y :: x in s && y in s && key(x) == key(y) ==> x == y
  }

  lemma SameTails<T>(a: seq<T>, b: seq<T>)
    requires a != [] && b != [] && a[0] == b[0] && multiset(a) == multiset(b)
    ensures multiset(a[1..]) == multiset(b[1..])
  {
    assert a == [a[0]] + a[1..] && b == [b[0]] + b[1..];
    assert multiset(a[1..]) == multiset(a) - multiset{a[0]};
    assert multiset(b[1..]) == multiset(b) - multiset{b[0]};
  }

  /** Two sorted arrangements of the same elements are the same list, when
      different elements have different keys. */
  lemma {:induction false} SortedUnique<T>(key: T -> string, a: seq<T>, b: seq<T>)
    requires SortedBy(key, a) && SortedBy(key, b)
    requires multiset(a) == multiset(b)
    requires DistinctKeys(key, a)
    ensures a == b
  {
    assert |multiset(a)| == |a| && |multiset(b)| == |b|;
    if a != [] {
      assert a[0] in multiset(b) && b[0] in multiset(a);
      SortedHead(key, a, b);
      assert b[0] in a;
      SameTails(a, b);
      assert DistinctKeys(key, a[1..]) by {
        forall x | x in a[1..] ensures x in a { }
      }
      SortedUnique(key, a[1..], b[1..]);
      assert a == [a[0]] + a[1..] && b == [b[0]] + b[1..];
    }
  }

  function Same(x: string): string { x }

  /** `sorted` of a list of strings. */
  function Sort(s: seq<string>): seq<string> { SortBy(Same, s) }

  /** Sorting forgets the order its input came in. */
  lemma SortCanonical(a: seq<string>, b: seq<string>)
    requires multiset(a) == multiset(b)
    ensures Sort(a) == Sort(b)
  {
    SortByCorrect(Same, a);
    SortByCorrect(Same, b);
    SortedUnique(Same, Sort(a), Sort(b));
  }

  /** Taking the head of one arrangement out of another leaves arrangements of
      the same elements. */
  lemma RemoveHead<T>(a: seq<T>, b: seq<T>, i: nat)
    requires multiset(a) == multiset(b) && a != [] && i < |b| && b[i] == a[0]
    ensures multiset(a[1..]) == multiset(b[..i] + b[i + 1..])
    ensures b == b[..i] + ([a[0]] + b[i + 1..])
  {
    assert a == [a[0]] + a[1..];
    assert b == b[..i] + ([a[0]] + b[i + 1..]);
    assert multiset(b[..i] + b[i + 1..]) == multiset(b) - multiset{a[0]};
    assert multiset(a[1..]) == multiset(a) - multiset{a[0]};
  }

  lemma ConcatAssociative<T>(a: seq<T>, b: seq<T>, c: seq<T>)
    ensures a + (b + c) == (a + b) + c
  {
  }

  // ----- keeping some elements ----------------------------------------------

  function Keep<T>(p: T -> bool, s: seq<T>): seq<T> {
    if s == [] then [] else (if p(s[0]) then [s[0]] else []) + Keep(p, s[1..])
  }

  lemma KeepSingle<T>(p: T -> bool, x: T)
    ensures Keep(p, [x]) == if p(x) then [x] else []
  {
    assert [x][1..] == [];
    assert Keep(p, [x][1..]) == [];
  }

  lemma {:induction false} KeepElements<T>(p: T -> bool, s: seq<T>)
    ensures forall x :: x in Keep(p, s) <==> x in s && p(x)
  {
    if s != [] {
      KeepElements(p, s[1..]);
      assert s == [s[0]] + s[1..];
    }
  }

  lemma {:induction false} KeepInsert<T>(p: T -> bool, key: T -> string, x: T, s: seq<T>)
    requires SortedBy(key, s)
    ensures Keep(p, InsertBy(key, x, s)) == if p(x) then InsertBy(key, x, Keep(p, s)) else Keep(p, s)
  {
    if s == [] {
    } else if Less(key(s[0]), key(x)) {
      var r := InsertBy(key, x, s[1..]);
      KeepInsert(p, key, x, s[1..]);
      assert ([s[0]] + r)[1..] == r;
      KeepHead(p, s[0], r);
      KeepHead(p, s[0], s[1..]);
      assert [s[0]] + s[1..] == s;
      assert ([s[0]] + Keep(p, s[1..]))[1..] == Keep(p, s[1..]);
    } else {
      KeepHead(p, x, s);
      if p(x) && Keep(p, s) != [] {
        var y := Keep(p, s)[0];
        KeepMember(p, s, y);
        var i :| 0 <= i < |s| && s[i] == y;
        if i > 0 { AtMostTransitive(key(x), key(s[0]), key(s[i])); }
      }
    }
  }

  lemma KeepMember<T>(p: T -> bool, s: seq<T>, y: T)
    ensures y in Keep(p, s) <==> y in s && p(y)
  {
    KeepElements(p, s);
  }

  lemma KeepHead<T>(p: T -> bool, x: T, s: seq<T>)
    ensures Keep(p, [x] + s) == if p(x) then [x] + Keep(p, s) else Keep(p, s)
  {
    assert ([x] + s)[1..] == s;
  }

  lemma KeepConcatStep<T>(p: T -> bool, x: T, a: seq<T>, b: seq<T>)
    requires Keep(p, a + b) == Keep(p, a) + Keep(p, b)
    ensures Keep(p, [x] + (a + b)) == Keep(p, [x] + a) + Keep(p, b)
  {
    KeepHead(p, x, a + b);
    KeepHead(p, x, a);
    ConcatAssociative([x], Keep(p, a), Keep(p, b));
  }

  lemma {:induction false} KeepConcat<T>(p: T -> bool, a: seq<T>, b: seq<T>)
    ensures Keep(p, a + b) == Keep(p, a) + Keep(p, b)
  {
    if a == [] {
      assert a + b == b;
    } else {
      KeepConcat(p, a[1..], b);
      KeepConcatStep(p, a[0], a[1..], b);
      assert [a[0]] + (a[1..] + b) == a + b && [a[0]] + a[1..] == a;
    }
  }

  lemma KeepLast<T>(p: T -> bool, s: seq<T>)
    requires s != []
    ensures Keep(p, s) == Keep(p, s[..|s| - 1]) + if p(s[|s| - 1]) then [s[|s| - 1]] else []
  {
    var before, last := s[..|s| - 1], s[|s| - 1];
    assert s == before + [last];
    KeepConcat(p, before, [last]);
    KeepSingle(p, last);
  }

  /** Sorting and dropping elements commute. */
  lemma {:induction false} SortKeep<T>(p: T -> bool, key: T -> string, s: seq<T>)
    ensures SortBy(key, Keep(p, s)) == Keep(p, SortBy(key, s))
  {
    if s != [] {
      SortKeep(p, key, s[1..]);
      SortByCorrect(key, s[1..]);
      KeepInsert(p, key, s[0], SortBy(key, s[1..]));
      assert ([s[0]] + Keep(p, s[1..]))[1..] == Keep(p, s[1..]);
      assert !p(s[0]) ==> Keep(p, s) == Keep(p, s[1..]);
    }
  }

  // ----- sorted(set) --------------------------------------------------------

  ghost predicate Increasing<T>(lt: (T, T) -> bool, s: seq<T>) {
    forall i, j :: 0 <= i < j < |s| ==> lt(s[i], s[j])
  }

  /** `r` is the strictly increasing listing of `s`. */
  ghost predicate Lists<T(!new)>(lt: (T, T) -> bool, s: set<T>, r: seq<T>) {
    Increasing(lt, r) && forall x :: x in r <==> x in s
  }

  lemma {:induction false} ListsUnique<T(!new)>(lt: (T, T) -> bool, s: set<T>, a: seq<T>, b: seq<T>)
    requires StrictOrder(lt) && Lists(lt, s, a) && Lists(lt, s, b)
    ensures a == b
    decreases |a|
  {
    if a == [] {
      ListingSize(lt, s, a);
      ListingSize(lt, s, b);
    } else {
      assert a[0] in s;
      assert a[0] in b;
      assert b[0] in s;
      var i :| 0 <= i < |b| && b[i] == a[0];
      var j :| 0 <= j < |a| && a[j] == b[0];
      assert a[0] == b[0];
      var t := s - {a[0]};
      assert a == [a[0]] + a[1..] && b == [b[0]] + b[1..];
      forall x ensures x in a[1..] <==> x in t { if x in a[1..] { assert lt(a[0], x); } }
      forall x ensures x in b[1..] <==> x in t { if x in b[1..] { assert lt(b[0], x); } }
      ListsUnique(lt, t, a[1..], b[1..]);
      assert a == b;
    }
  }

  lemma {:induction false} ListsExists<T(!new)>(lt: (T, T) -> bool, s: set<T>)
    requires StrictOrder(lt)
    ensures exists r :: Lists(lt, s, r)
    decreases |s|
  {
    if s == {} {
      assert Lists(lt, s, []);
    } else {
      var x :| x in s;
      ListsExists(lt, s - {x});
      var r :| Lists(lt, s - {x}, r);
      InsertNewLists(lt, x, s - {x}, r);
      assert (s - {x}) + {x} == s;
    }
  }

  function InsertNew<T>(lt: (T, T) -> bool, x: T, s: seq<T>): seq<T> {
    if s == [] then [x]
    else if lt(s[0], x) then [s[0]] + InsertNew(lt, x, s[1..])
    else [x] + s
  }

  lemma {:induction false} InsertNewLists<T(!new)>(lt: (T, T) -> bool, x: T, s: set<T>, r: seq<T>)
    requires StrictOrder(lt) && Lists(lt, s, r) && x !in s
    ensures Lists(lt, s + {x}, InsertNew(lt, x, r))
    decreases |r|
  {
    if r == [] {
      assert forall y :: y !in s;
    } else {
      assert r[0] in s;
      assert r == [r[0]] + r[1..];
      if lt(r[0], x) {
        var t := s - {r[0]};
        forall y ensures y in r[1..] <==> y in t { if y in r[1..] { assert lt(r[0], y); } }
        InsertNewLists(lt, x, t, r[1..]);
        var q := InsertNew(lt, x, r[1..]);
        forall j | 0 <= j < |q| ensures lt(r[0], q[j]) { assert q[j] in q; }
        assert t + {x} + {r[0]} == s + {x};
      } else {
        assert lt(x, r[0]);
        forall j | 0 <= j < |r| ensures lt(x, r[j]) { }
      }
    }
  }

  /** `sorted(s)` for a set. */
  ghost function Listing<T(!new)>(lt: (T, T) -> bool, s: set<T>): (r: seq<T>)
    requires StrictOrder(lt)
    ensures Lists(lt, s, r)
  {
    ListsExists(lt, s);
    var r :| Lists(lt, s, r);
    r
  }

  method SortedSet<T(!new, ==)>(lt: (T, T) -> bool, s: set<T>) returns (r: seq<T>)
    requires StrictOrder(lt)
    ensures Lists(lt, s, r) && r == Listing(lt, s)
  {
    r := [];
    var rest := s;
    while rest != {}
      invariant rest <= s
      invariant Lists(lt, s - rest, r)
      decreases rest
    {
      var x :| x in rest;
      InsertNewLists(lt, x, s - rest, r);
      r := InsertNew(lt, x, r);
      assert (s - rest) + {x} == s - (rest - {x});
      rest := rest - {x};
    }
    assert s - rest == s;
    ListsUnique(lt, s, r, Listing(lt, s));
  }

  /** A strictly increasing list has one entry per element of the set. */
  lemma {:induction false} ListingSize<T(!new)>(lt: (T, T) -> bool, s: set<T>, r: seq<T>)
    requires StrictOrder(lt) && Lists(lt, s, r)
    ensures |r| == |s|
    decreases |r|
  {
    if r == [] {
      assert forall x :: x !in s;
    } else {
      assert r[0] in s && r == [r[0]] + r[1..];
      var t := s - {r[0]};
      forall y ensures y in r[1..] <==> y in t { if y in r[1..] { assert lt(r[0], y); } }
      ListingSize(lt, t, r[1..]);
    }
  }

  lemma SubsetSize<T>(a: set<T>, b: set<T>)
    requires a <= b
    ensures |a| <= |b|
  {
    assert b == a + (b - a);
  }

  /** `sorted` of a set of strings. */
  ghost function SortedStrings(s: set<string>): (r: seq<string>)
    ensures Lists(Less, s, r)
  {
    LessIsStrictOrder();
    Listing(Less, s)
  }

  method SortStrings(s: set<string>) returns (r: seq<string>)
    ensures r == SortedStrings(s)
  {
    LessIsStrictOrder();
    r := SortedSet(Less, s);
  }

  /** `sorted` of a set of pairs of strings. */
  ghost function SortedPairs(s: set<(string, string)>): (r: seq<(string, string)>)
    ensures Lists(LessPair, s, r)
  {
    LessPairIsStrictOrder();
    Listing(LessPair, s)
  }

  method SortPairs(s: set<(string, string)>) returns (r: seq<(string, string)>)
    ensures r == SortedPairs(s)
  {
    LessPairIsStrictOrder();
    r := SortedSet(LessPair, s);
  }
}
