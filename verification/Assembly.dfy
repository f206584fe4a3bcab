/** Assembling one device from the bindings of several Home Assistant entities. */
module Assembly {
  import opened Base
  import opened Order

  /** A feature binding; `capability` is empty when the selector names none. */
  datatype Binding = Binding(
    featureType: string, identifier: string, capability: string, registry: string, entity: string, rest: Json)

  /** A binding under the identifier it gets on the assembled device. */
  datatype Named = Named(binding: Binding, identifier: string)

  function Cap(b: Binding): string {
    if b.capability != "" then b.capability else b.identifier
  }

  /** The group a binding belongs to: its feature type and capability. */
  function KeyOf(b: Binding): seq<string> {
    [b.featureType, Cap(b)]
  }

  function GroupOf(raw: seq<Binding>, key: seq<string>): seq<Binding> {
    if raw == [] then []
    else
      var n := |raw| - 1;
      GroupOf(raw[..n], key) + (if KeyOf(raw[n]) == key then [raw[n]] else [])
  }

  function KeysOf(raw: seq<Binding>): seq<seq<string>> {
    seq(|raw|, i requires 0 <= i < |raw| => KeyOf(raw[i]))
  }

  // --------------------------------------------------- order in a group

  function Rank(b: Binding): seq<string> {
    [b.registry, b.entity]
  }

  /** Puts `b` behind everything that does not rank after it. */
  function Insert(s: seq<Binding>, b: Binding): seq<Binding> {
    if s == [] then [b]
    else
      var n := |s| - 1;
      if StringsLt(Rank(b), Rank(s[n])) then Insert(s[..n], b) + [s[n]] else s + [b]
  }

  /** A stable sort by registry identity and entity. */
  function Sorted(s: seq<Binding>): seq<Binding> {
    if s == [] then [] else Insert(Sorted(s[..|s| - 1]), s[|s| - 1])
  }

  lemma {:induction false} InsertKeepsAll(s: seq<Binding>, b: Binding)
    ensures multiset(Insert(s, b)) == multiset(s) + multiset{b}
  {
    if s == [] {
    } else {
      var n := |s| - 1;
      InsertKeepsAll(s[..n], b);
      assert s == s[..n] + [s[n]];
    }
  }

  lemma {:induction false} InsertLength(s: seq<Binding>, b: Binding)
    ensures |Insert(s, b)| == |s| + 1
  {
    if s == [] {
    } else {
      InsertLength(s[..|s| - 1], b);
    }
  }

  lemma {:induction false} SortedLength(s: seq<Binding>)
    ensures |Sorted(s)| == |s|
  {
    if s == [] {
    } else {
      SortedLength(s[..|s| - 1]);
      InsertLength(Sorted(s[..|s| - 1]), s[|s| - 1]);
    }
  }

  lemma {:induction false} SortedElements(s: seq<Binding>)
    ensures multiset(Sorted(s)) == multiset(s)
  {
    if s == [] {
    } else {
      var n := |s| - 1;
      SortedElements(s[..n]);
      InsertKeepsAll(Sorted(s[..n]), s[n]);
      assert s == s[..n] + [s[n]];
    }
  }

  lemma SortedKeepsAll(s: seq<Binding>)
    ensures multiset(Sorted(s)) == multiset(s) && |Sorted(s)| == |s|
  {
    SortedElements(s);
    SortedLength(s);
  }

  predicate InOrder(s: seq<Binding>) {
    forall i, j | 0 <= i < j < |s| :: !StringsLt(Rank(s[j]), Rank(s[i]))
  }

  lemma NotBefore(a: seq<string>, b: seq<string>, c: seq<string>)
    requires !StringsLt(b, a) && !StringsLt(c, b)
    ensures !StringsLt(c, a)
  {
    StringsOrder();
  }

  lemma NotBoth(a: seq<string>, b: seq<string>)
    requires StringsLt(a, b)
    ensures !StringsLt(b, a)
  {
    StringsOrder();
  }

  lemma {:induction false} InsertInOrder(s: seq<Binding>, b: Binding)
    requires InOrder(s)
    ensures InOrder(Insert(s, b))
  {
    if s == [] {
    } else {
      var n := |s| - 1;
      if StringsLt(Rank(b), Rank(s[n])) {
        InsertInOrder(s[..n], b);
        NotBoth(Rank(b), Rank(s[n]));
        InsertKeepsAll(s[..n], b);
        forall x | x in Insert(s[..n], b) ensures !StringsLt(Rank(s[n]), Rank(x)) {
          assert x in multiset(Insert(s[..n], b));
        }
      } else {
        forall i | 0 <= i < |s| ensures !StringsLt(Rank(b), Rank(s[i])) {
          if i < n {
            NotBefore(Rank(s[i]), Rank(s[n]), Rank(b));
          }
        }
      }
    }
  }

  /** A group is listed in order of registry identity, then entity. */
  lemma {:induction false} SortedInOrder(s: seq<Binding>)
    ensures InOrder(Sorted(s))
  {
    if s == [] {
    } else {
      SortedInOrder(s[..|s| - 1]);
      InsertInOrder(Sorted(s[..|s| - 1]), s[|s| - 1]);
    }
  }

  // ------------------------------------------------------------- names

  function Dec(n: nat): string {
    if n < 10 then [('0' as int + n) as char] else Dec(n / 10) + [('0' as int + n % 10) as char]
  }

  function NameAt(cap: string, size: nat, index: nat): string {
    if size == 1 then cap else cap + "_" + Dec(index)
  }

  function NamedGroup(cap: string, group: seq<Binding>): seq<Named> {
    seq(|group|, i requires 0 <= i < |group| => Named(group[i], NameAt(cap, |group|, i + 1)))
  }

  predicate IsKey(key: seq<string>) { |key| == 2 }

  function NamedGroups(raw: seq<Binding>, keys: seq<seq<string>>): seq<Named>
    requires forall k | k in keys :: IsKey(k)
  {
    if keys == [] then []
    else
      var n := |keys| - 1;
      assert IsKey(keys[n]);
      NamedGroups(raw, keys[..n]) + NamedGroup(keys[n][1], Sorted(GroupOf(raw, keys[n])))
  }

  lemma KeysAreKeys(raw: seq<Binding>)
    ensures forall k | k in SortDistinct(KeysOf(raw), StringsLt) :: IsKey(k)
  {
    StringsOrder();
    SortDistinctSorts(KeysOf(raw), StringsLt);
    forall k | k in SortDistinct(KeysOf(raw), StringsLt) ensures IsKey(k) {
      assert k in Elements(SortDistinct(KeysOf(raw), StringsLt));
    }
  }

  /** The bindings of the assembled device. */
  function Assembled(raw: seq<Binding>): seq<Named> {
    KeysAreKeys(raw);
    NamedGroups(raw, SortDistinct(KeysOf(raw), StringsLt))
  }

  // ------------------------------------------------------------ the loops

  lemma GroupGrows(raw: seq<Binding>, i: nat, key: seq<string>)
    requires i < |raw|
    ensures GroupOf(raw[..i + 1], key) == GroupOf(raw[..i], key) + (if KeyOf(raw[i]) == key then [raw[i]] else [])
  {
    assert raw[..i + 1][..i] == raw[..i];
  }

  lemma {:induction false} NoKeyNoGroup(raw: seq<Binding>, key: seq<string>)
    requires key !in KeysOf(raw)
    ensures GroupOf(raw, key) == []
  {
    if raw == [] {
    } else {
      var n := |raw| - 1;
      assert KeysOf(raw)[n] == KeyOf(raw[n]);
      assert forall i | 0 <= i < n :: KeysOf(raw[..n])[i] == KeysOf(raw)[i];
      NoKeyNoGroup(raw[..n], key);
    }
  }

  ghost predicate Groups(groups: map<seq<string>, seq<Binding>>, raw: seq<Binding>) {
    && groups.Keys == Elements(KeysOf(raw))
    && forall k | k in groups :: groups[k] == GroupOf(raw, k)
  }

  lemma GroupsGrow(groups: map<seq<string>, seq<Binding>>, raw: seq<Binding>, i: nat)
    requires i < |raw| && Groups(groups, raw[..i])
    ensures var key := KeyOf(raw[i]);
      Groups(groups[key := (if key in groups then groups[key] else []) + [raw[i]]], raw[..i + 1])
  {
    var key := KeyOf(raw[i]);
    assert KeysOf(raw[..i + 1]) == KeysOf(raw[..i]) + [key];
    if key !in groups {
      assert key !in Elements(KeysOf(raw[..i]));
      NoKeyNoGroup(raw[..i], key);
    }
    forall k ensures GroupOf(raw[..i + 1], k) == GroupOf(raw[..i], k) + (if key == k then [raw[i]] else []) {
      GroupGrows(raw, i, k);
    }
  }

  method Grouped(raw: seq<Binding>) returns (groups: map<seq<string>, seq<Binding>>)
    ensures Groups(groups, raw)
  {
    groups := map[];
    for i := 0 to |raw|
      invariant Groups(groups, raw[..i])
    {
      var key := KeyOf(raw[i]);
      GroupsGrow(groups, raw, i);
      groups := groups[key := (if key in groups then groups[key] else []) + [raw[i]]];
    }
    assert raw[..|raw|] == raw;
  }

  method Numbered(cap: string, ordered: seq<Binding>) returns (out: seq<Named>)
    ensures out == NamedGroup(cap, ordered)
  {
    out := [];
    for i := 0 to |ordered|
      invariant out == NamedGroup(cap, ordered)[..i]
    {
      var identifier := if |ordered| == 1 then cap else cap + "_" + Dec(i + 1);
      out := out + [Named(ordered[i], identifier)];
    }
  }

  method Flattened(ghost raw: seq<Binding>, groups: map<seq<string>, seq<Binding>>, keys: seq<seq<string>>)
    returns (bindings: seq<Named>)
    requires Groups(groups, raw) && Elements(keys) == Elements(KeysOf(raw)) && forall k | k in keys :: IsKey(k)
    ensures bindings == NamedGroups(raw, keys)
  {
    bindings := [];
    for i := 0 to |keys|
      invariant bindings == NamedGroups(raw, keys[..i])
    {
      assert keys[i] in Elements(keys);
      assert keys[..i + 1][..i] == keys[..i];
      assert IsKey(keys[i]);
      var named := Numbered(keys[i][1], Sorted(groups[keys[i]]));
      bindings := bindings + named;
    }
    assert keys[..|keys|] == keys;
  }

  method Assemble(raw: seq<Binding>) returns (bindings: seq<Named>)
    ensures bindings == Assembled(raw)
  {
    var groups := Grouped(raw);
    var keys := SortDistinct(KeysOf(raw), StringsLt);
    StringsOrder();
    SortDistinctSorts(KeysOf(raw), StringsLt);
    KeysAreKeys(raw);
    bindings := Flattened(raw, groups, keys);
  }
}
