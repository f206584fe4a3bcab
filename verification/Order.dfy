/** Strict total orders, lexicographic order and sorting without duplicates,
    which is what `sorted(set(...))` and `sorted` over distinct keys do. */
module Order {
  import opened Base

  ghost predicate StrictTotal<T(!new)>(lt: (T, T) -> bool) {
    && (forall x :: !lt(x, x))
    && (forall x, y :: lt(x, y) || x == y || lt(y, x))
    && (forall x, y, z :: lt(x, y) && lt(y, z) ==> lt(x, z))
  }

  predicate StrictlySorted<T>(s: seq<T>, lt: (T, T) -> bool) {
    forall i, j | 0 <= i < j < |s| :: lt(s[i], s[j])
  }

  /** Two strictly sorted sequences of the same elements are the same sequence. */
  lemma {:induction false} SortedUnique<T(!new)>(a: seq<T>, b: seq<T>, lt: (T, T) -> bool)
    requires StrictTotal(lt) && StrictlySorted(a, lt) && StrictlySorted(b, lt)
    requires Elements(a) == Elements(b)
    ensures a == b
  {
    assert b != [] ==> b[0] in Elements(a);
    if a == [] {
    } else {
      assert a[0] in Elements(b);
      assert a[0] == b[0];
      TailElements(a, lt);
      TailElements(b, lt);
      SortedUnique(a[1..], b[1..], lt);
      assert a == [a[0]] + a[1..] && b == [b[0]] + b[1..];
    }
  }

  lemma TailElements<T(!new)>(a: seq<T>, lt: (T, T) -> bool)
    requires StrictTotal(lt) && StrictlySorted(a, lt) && a != []
    ensures StrictlySorted(a[1..], lt) && Elements(a[1..]) == Elements(a) - {a[0]}
  {
    forall x | x in Elements(a) && x != a[0] ensures x in a[1..] {
      var i :| 0 <= i < |a| && a[i] == x;
      assert a[1..][i - 1] == x;
    }
    forall i | 0 <= i < |a[1..]| ensures a[1..][i] != a[0] {
      assert lt(a[0], a[i + 1]);
    }
  }

  /** Puts `x` where it belongs, unless it is there already. */
  function Place<T(==)>(x: T, s: seq<T>, lt: (T, T) -> bool): seq<T> {
    if s == [] then [x]
    else if x == s[0] then s
    else if lt(x, s[0]) then [x] + s
    else [s[0]] + Place(x, s[1..], lt)
  }

  function SortDistinct<T(==)>(s: seq<T>, lt: (T, T) -> bool): seq<T> {
    if s == [] then [] else Place(s[0], SortDistinct(s[1..], lt), lt)
  }

  lemma {:induction false} PlaceElements<T(!new)>(x: T, s: seq<T>, lt: (T, T) -> bool)
    ensures Elements(Place(x, s, lt)) == Elements(s) + {x}
  {
    if s == [] || x == s[0] || lt(x, s[0]) {
    } else {
      PlaceElements(x, s[1..], lt);
      assert Elements(s) == {s[0]} + Elements(s[1..]);
      assert Elements([s[0]] + Place(x, s[1..], lt)) == {s[0]} + Elements(Place(x, s[1..], lt));
    }
  }

  lemma {:induction false} PlaceSorted<T(!new)>(x: T, s: seq<T>, lt: (T, T) -> bool)
    requires StrictTotal(lt) && StrictlySorted(s, lt)
    ensures StrictlySorted(Place(x, s, lt), lt)
  {
    if s == [] || x == s[0] || lt(x, s[0]) {
    } else {
      PlaceSorted(x, s[1..], lt);
      var p := Place(x, s[1..], lt);
      PlaceElements(x, s[1..], lt);
      forall i | 0 <= i < |p| ensures lt(s[0], p[i]) {
        assert p[i] in Elements(p);
        if p[i] != x {
          var k :| 0 <= k < |s[1..]| && s[1..][k] == p[i];
          assert lt(s[0], s[k + 1]);
        }
      }
    }
  }

  /** The result is the one strictly sorted sequence of the input's elements. */
  lemma {:induction false} SortDistinctSorts<T(!new)>(s: seq<T>, lt: (T, T) -> bool)
    requires StrictTotal(lt)
    ensures StrictlySorted(SortDistinct(s, lt), lt) && Elements(SortDistinct(s, lt)) == Elements(s)
  {
    if s == [] {
    } else {
      SortDistinctSorts(s[1..], lt);
      PlaceSorted(s[0], SortDistinct(s[1..], lt), lt);
      PlaceElements(s[0], SortDistinct(s[1..], lt), lt);
      assert Elements(s) == {s[0]} + Elements(s[1..]);
    }
  }

  /** Sorting depends on the set of elements only. */
  lemma SortDistinctOfSet<T(!new)>(a: seq<T>, b: seq<T>, lt: (T, T) -> bool)
    requires StrictTotal(lt) && Elements(a) == Elements(b)
    ensures SortDistinct(a, lt) == SortDistinct(b, lt)
  {
    SortDistinctSorts(a, lt);
    SortDistinctSorts(b, lt);
    SortedUnique(SortDistinct(a, lt), SortDistinct(b, lt), lt);
  }

  /** Lexicographic order: of strings over characters, of tuples over strings. */
  predicate Lex<T(==)>(a: seq<T>, b: seq<T>, lt: (T, T) -> bool) {
    if b == [] then false
    else if a == [] then true
    else if a[0] == b[0] then Lex(a[1..], b[1..], lt)
    else lt(a[0], b[0])
  }

  lemma {:induction false} LexTrichotomy<T(!new)>(a: seq<T>, b: seq<T>, lt: (T, T) -> bool)
    requires StrictTotal(lt)
    ensures !Lex(a, a, lt) && (Lex(a, b, lt) || a == b || Lex(b, a, lt))
  {
    if a == [] {
    } else {
      LexTrichotomy(a[1..], if b == [] then [] else b[1..], lt);
      if b != [] && a[0] == b[0] && a[1..] == b[1..] {
        assert a == [a[0]] + a[1..] && b == [b[0]] + b[1..];
      }
    }
  }

  lemma {:induction false} LexTransitive<T(!new)>(a: seq<T>, b: seq<T>, d: seq<T>, lt: (T, T) -> bool)
    requires StrictTotal(lt) && Lex(a, b, lt) && Lex(b, d, lt)
    ensures Lex(a, d, lt)
  {
    if a == [] || a[0] != b[0] || b[0] != d[0] {
    } else {
      LexTransitive(a[1..], b[1..], d[1..], lt);
    }
  }

  predicate CharLt(a: char, b: char) { a < b }

  predicate StringLt(a: string, b: string) { Lex(a, b, CharLt) }

  predicate StringsLt(a: seq<string>, b: seq<string>) { Lex(a, b, StringLt) }

  lemma StringOrder()
    ensures StrictTotal(StringLt)
  {
    assert StrictTotal(CharLt);
    forall a, b ensures !StringLt(a, a) && (StringLt(a, b) || a == b || StringLt(b, a)) {
      LexTrichotomy(a, b, CharLt);
    }
    forall a, b, d | StringLt(a, b) && StringLt(b, d) ensures StringLt(a, d) {
      LexTransitive(a, b, d, CharLt);
    }
  }

  lemma StringsOrder()
    ensures StrictTotal(StringsLt)
  {
    StringOrder();
    forall a, b ensures !StringsLt(a, a) && (StringsLt(a, b) || a == b || StringsLt(b, a)) {
      LexTrichotomy(a, b, StringLt);
    }
    forall a, b, d | StringsLt(a, b) && StringsLt(b, d) ensures StringsLt(a, d) {
      LexTransitive(a, b, d, StringLt);
    }
  }

  /** `tuple(sorted(set(ids)))` */
  function SortedIds(ids: seq<string>): seq<string> {
    SortDistinct(ids, StringLt)
  }

  lemma SortedIdsSorts(ids: seq<string>)
    ensures StrictlySorted(SortedIds(ids), StringLt) && Elements(SortedIds(ids)) == Elements(ids)
    ensures StrictlySorted(ids, StringLt) ==> SortedIds(ids) == ids
  {
    StringOrder();
    SortDistinctSorts(ids, StringLt);
    if StrictlySorted(ids, StringLt) {
      SortedUnique(SortedIds(ids), ids, StringLt);
    }
  }
}
