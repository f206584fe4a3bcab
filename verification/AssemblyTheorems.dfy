/** No binding is lost in assembly, and when identifiers are distinct. */
module AssemblyTheorems {
  import opened Base
  import opened Order
  import opened Assembly

  // ------------------------------------------------------- conservation

  function BindingsOf(out: seq<Named>): seq<Binding> {
    seq(|out|, i requires 0 <= i < |out| => out[i].binding)
  }

  /** The bindings whose group is among `keys`, in order. */
  ghost function OfKeys(raw: seq<Binding>, keys: set<seq<string>>): seq<Binding> {
    if raw == [] then []
    else
      var n := |raw| - 1;
      OfKeys(raw[..n], keys) + (if KeyOf(raw[n]) in keys then [raw[n]] else [])
  }

  lemma {:induction false} OneMoreKey(raw: seq<Binding>, keys: set<seq<string>>, key: seq<string>)
    requires key !in keys
    ensures multiset(OfKeys(raw, keys + {key})) == multiset(OfKeys(raw, keys)) + multiset(GroupOf(raw, key))
  {
    if raw == [] {
    } else {
      OneMoreKey(raw[..|raw| - 1], keys, key);
    }
  }

  lemma {:induction false} AllKeys(raw: seq<Binding>, keys: set<seq<string>>)
    requires forall b | b in raw :: KeyOf(b) in keys
    ensures OfKeys(raw, keys) == raw
  {
    if raw == [] {
    } else {
      var n := |raw| - 1;
      AllKeys(raw[..n], keys);
      assert raw[n] in raw && raw == raw[..n] + [raw[n]];
    }
  }

  lemma {:induction false} NoKeys(raw: seq<Binding>)
    ensures OfKeys(raw, {}) == []
  {
    if raw == [] {
    } else {
      NoKeys(raw[..|raw| - 1]);
    }
  }

  lemma BindingsAppend(a: seq<Named>, b: seq<Named>)
    ensures BindingsOf(a + b) == BindingsOf(a) + BindingsOf(b)
  {
  }

  lemma GroupConserves(raw: seq<Binding>, key: seq<string>)
    requires IsKey(key)
    ensures multiset(BindingsOf(NamedGroup(key[1], Sorted(GroupOf(raw, key))))) == multiset(GroupOf(raw, key))
  {
    var group := Sorted(GroupOf(raw, key));
    SortedKeepsAll(GroupOf(raw, key));
    assert BindingsOf(NamedGroup(key[1], group)) == group;
  }

  lemma LastIsNew(keys: seq<seq<string>>)
    requires Distinct(keys) && keys != []
    ensures var n := |keys| - 1;
      keys[n] !in Elements(keys[..n]) && Elements(keys) == Elements(keys[..n]) + {keys[n]}
  {
    assert keys == keys[..|keys| - 1] + [keys[|keys| - 1]];
  }

  lemma {:induction false} GroupsConserve(raw: seq<Binding>, keys: seq<seq<string>>)
    requires (forall k | k in keys :: IsKey(k)) && Distinct(keys)
    ensures multiset(BindingsOf(NamedGroups(raw, keys))) == multiset(OfKeys(raw, Elements(keys)))
  {
    if keys == [] {
      NoKeys(raw);
      assert Elements(keys) == {};
    } else {
      var n := |keys| - 1;
      GroupsConserve(raw, keys[..n]);
      LastIsNew(keys);
      OneMoreKey(raw, Elements(keys[..n]), keys[n]);
      assert IsKey(keys[n]);
      GroupConserves(raw, keys[n]);
      BindingsAppend(NamedGroups(raw, keys[..n]), NamedGroup(keys[n][1], Sorted(GroupOf(raw, keys[n]))));
    }
  }

  lemma KeysAre(raw: seq<Binding>, keys: seq<seq<string>>)
    requires keys == SortDistinct(KeysOf(raw), StringsLt)
    ensures Distinct(keys) && forall k :: k in keys <==> exists b :: b in raw && KeyOf(b) == k
  {
    StringsOrder();
    SortDistinctSorts(KeysOf(raw), StringsLt);
    forall k ensures k in keys <==> exists b :: b in raw && KeyOf(b) == k {
      KeyIsOf(raw, k);
      assert k in Elements(keys) <==> k in Elements(KeysOf(raw));
    }
  }

  lemma KeyIsOf(raw: seq<Binding>, k: seq<string>)
    ensures k in KeysOf(raw) <==> exists b :: b in raw && KeyOf(b) == k
  {
    if k in KeysOf(raw) {
      var i :| 0 <= i < |raw| && KeysOf(raw)[i] == k;
      assert raw[i] in raw;
    }
    if b :| b in raw && KeyOf(b) == k {
      var i :| 0 <= i < |raw| && raw[i] == b;
      assert KeysOf(raw)[i] == k;
    }
  }

  /** Every binding of every entity is on the assembled device exactly once. */
  lemma EveryBindingOnce(raw: seq<Binding>)
    ensures multiset(BindingsOf(Assembled(raw))) == multiset(raw)
  {
    var keys := SortDistinct(KeysOf(raw), StringsLt);
    KeysAreKeys(raw);
    KeysAre(raw, keys);
    GroupsConserve(raw, keys);
    forall b | b in raw ensures KeyOf(b) in Elements(keys) {
      assert KeyOf(b) in keys;
    }
    AllKeys(raw, Elements(keys));
  }

  // -------------------------------------------------------------- numbers

  predicate Plain(s: string) { '_' !in s }

  lemma {:induction false} DecIsPlain(n: nat)
    ensures Plain(Dec(n)) && Dec(n) != ""
  {
    if n < 10 {
    } else {
      DecIsPlain(n / 10);
    }
  }

  lemma {:induction false} DecInjective(m: nat, n: nat)
    requires Dec(m) == Dec(n)
    ensures m == n
  {
    var a, b := Dec(m), Dec(n);
    assert a[|a| - 1] == ('0' as int + m % 10) as char;
    assert b[|b| - 1] == ('0' as int + n % 10) as char;
    assert m % 10 == n % 10;
    if m < 10 || n < 10 {
    } else {
      assert Dec(m / 10) == a[..|a| - 1] && Dec(n / 10) == b[..|b| - 1];
      DecInjective(m / 10, n / 10);
    }
  }

  lemma LastUnderscore(a: string, d: string)
    requires Plain(d)
    ensures var s := a + "_" + d;
      s[|a|] == '_' && forall i | |a| < i < |s| :: s[i] != '_'
  {
    var s := a + "_" + d;
    forall i | |a| < i < |s| ensures s[i] != '_' {
      assert s[i] == d[i - |a| - 1];
    }
  }

  /** The last underscore tells the capability from the number. */
  lemma SplitAtUnderscore(a: string, d: string, b: string, e: string)
    requires a + "_" + d == b + "_" + e && Plain(d) && Plain(e)
    ensures a == b && d == e
  {
    LastUnderscore(a, d);
    LastUnderscore(b, e);
    var s := a + "_" + d;
    assert s[..|a|] == a && s[|a| + 1..] == d;
    assert s[..|b|] == b && s[|b| + 1..] == e;
  }

  // ------------------------------------------------------------- naming

  predicate DistinctNames(out: seq<Named>) {
    forall i, j | 0 <= i < j < |out| && out[i].binding.featureType == out[j].binding.featureType ::
      out[i].identifier != out[j].identifier
  }

  function SizeOf(raw: seq<Binding>, key: seq<string>): nat {
    |GroupOf(raw, key)|
  }

  /** A lone binding's capability reads like a number of a larger group of the
      same feature type. */
  ghost predicate Clash(raw: seq<Binding>, b: Binding, c: Binding, index: nat) {
    && b in raw && c in raw && b.featureType == c.featureType
    && SizeOf(raw, KeyOf(b)) == 1 && 1 < SizeOf(raw, KeyOf(c)) && 1 <= index <= SizeOf(raw, KeyOf(c))
    && Cap(b) == Cap(c) + "_" + Dec(index)
  }

  lemma SameName(c: string, n: nat, i: nat, d: string, m: nat, j: nat)
    requires NameAt(c, n, i) == NameAt(d, m, j)
    ensures n == 1 && m != 1 ==> c == d + "_" + Dec(j)
    ensures n != 1 && m == 1 ==> d == c + "_" + Dec(i)
    ensures (n == 1 <==> m == 1) ==> c == d && (n != 1 ==> i == j)
  {
    if n != 1 && m != 1 {
      DecIsPlain(i);
      DecIsPlain(j);
      SplitAtUnderscore(c, Dec(i), d, Dec(j));
      DecInjective(i, j);
    }
  }

  /** What stands at place `i` of the group of `key`. */
  function Entry(raw: seq<Binding>, key: seq<string>, i: nat): Named
    requires IsKey(key) && i < SizeOf(raw, key)
  {
    SortedKeepsAll(GroupOf(raw, key));
    NamedGroup(key[1], Sorted(GroupOf(raw, key)))[i]
  }

  lemma {:induction false} GroupMembers(raw: seq<Binding>, key: seq<string>)
    ensures forall b :: b in GroupOf(raw, key) <==> b in raw && KeyOf(b) == key
  {
    if raw == [] {
    } else {
      var n := |raw| - 1;
      GroupMembers(raw[..n], key);
      assert raw == raw[..n] + [raw[n]];
    }
  }

  lemma EntryIs(raw: seq<Binding>, key: seq<string>, i: nat)
    requires IsKey(key) && i < SizeOf(raw, key)
    ensures var e := Entry(raw, key, i);
      e.binding in raw && KeyOf(e.binding) == key && e.identifier == NameAt(key[1], SizeOf(raw, key), i + 1)
  {
    var group := GroupOf(raw, key);
    SortedKeepsAll(group);
    assert Sorted(group)[i] in multiset(Sorted(group));
    assert Sorted(group)[i] in group;
    GroupMembers(raw, key);
  }

  lemma {:induction false} EntriesAre(raw: seq<Binding>, keys: seq<seq<string>>, e: Named)
    requires forall k | k in keys :: IsKey(k)
    ensures e in NamedGroups(raw, keys)
      <==> exists k, i :: k in keys && 0 <= i < SizeOf(raw, k) && e == Entry(raw, k, i)
  {
    if keys == [] {
    } else {
      var n := |keys| - 1;
      assert IsKey(keys[n]) && keys == keys[..n] + [keys[n]];
      EntriesAre(raw, keys[..n], e);
      SortedKeepsAll(GroupOf(raw, keys[n]));
      var last := NamedGroup(keys[n][1], Sorted(GroupOf(raw, keys[n])));
      if e in last {
        var i :| 0 <= i < |last| && last[i] == e;
        assert e == Entry(raw, keys[n], i);
      }
      if k, i :| k in keys && 0 <= i < SizeOf(raw, k) && e == Entry(raw, k, i) {
        if k == keys[n] {
          assert e == last[i];
        } else {
          assert k in keys[..n];
        }
      }
    }
  }

  /** Two places with one name and feature type are one place, or clash. */
  lemma SameNameClashes(raw: seq<Binding>, k: seq<string>, i: nat, m: seq<string>, j: nat)
    requires IsKey(k) && IsKey(m) && i < SizeOf(raw, k) && j < SizeOf(raw, m) && k[0] == m[0]
    requires Entry(raw, k, i).identifier == Entry(raw, m, j).identifier
    ensures (k == m && i == j) || exists b, c, index :: Clash(raw, b, c, index)
  {
    EntryIs(raw, k, i);
    EntryIs(raw, m, j);
    var b, c := Entry(raw, k, i).binding, Entry(raw, m, j).binding;
    SameName(k[1], SizeOf(raw, k), i + 1, m[1], SizeOf(raw, m), j + 1);
    assert k == [k[0], k[1]] && m == [m[0], m[1]];
    if SizeOf(raw, k) == 1 && SizeOf(raw, m) != 1 {
      assert Clash(raw, b, c, j + 1);
    } else if SizeOf(raw, k) != 1 && SizeOf(raw, m) == 1 {
      assert Clash(raw, c, b, i + 1);
    }
  }

  ghost predicate Clashes(raw: seq<Binding>) {
    exists b, c, index :: Clash(raw, b, c, index)
  }

  lemma CrossDiffers(raw: seq<Binding>, keys: seq<seq<string>>, e: Named, key: seq<string>, i: nat)
    requires (forall k | k in keys :: IsKey(k)) && IsKey(key) && key !in keys && !Clashes(raw)
    requires e in NamedGroups(raw, keys) && i < SizeOf(raw, key) && e.binding.featureType == key[0]
    ensures e.identifier != Entry(raw, key, i).identifier
  {
    EntriesAre(raw, keys, e);
    var k: seq<string>, j: nat :| k in keys && 0 <= j < SizeOf(raw, k) && e == Entry(raw, k, j);
    EntryIs(raw, k, j);
    if e.identifier == Entry(raw, key, i).identifier {
      SameNameClashes(raw, k, j, key, i);
    }
  }

  lemma LastGroup(raw: seq<Binding>, keys: seq<seq<string>>, j: nat)
    requires (forall k | k in keys :: IsKey(k)) && keys != []
    ensures var n := |keys| - 1;
      var before := NamedGroups(raw, keys[..n]);
      IsKey(keys[n]) && |NamedGroups(raw, keys)| == |before| + SizeOf(raw, keys[n])
      && (j < |before| ==> NamedGroups(raw, keys)[j] == before[j])
      && (|before| <= j < |NamedGroups(raw, keys)| ==>
            NamedGroups(raw, keys)[j] == Entry(raw, keys[n], j - |before|))
  {
    assert keys[|keys| - 1] in keys;
    SortedKeepsAll(GroupOf(raw, keys[|keys| - 1]));
  }

  lemma GroupDiffers(raw: seq<Binding>, key: seq<string>, i: nat, j: nat)
    requires IsKey(key) && i < j < SizeOf(raw, key) && !Clashes(raw)
    ensures Entry(raw, key, i).identifier != Entry(raw, key, j).identifier
  {
    if Entry(raw, key, i).identifier == Entry(raw, key, j).identifier {
      SameNameClashes(raw, key, i, key, j);
    }
  }

  lemma {:induction false} NamesDiffer(raw: seq<Binding>, keys: seq<seq<string>>, i: nat, j: nat)
    requires (forall k | k in keys :: IsKey(k)) && Distinct(keys) && !Clashes(raw)
    requires i < j < |NamedGroups(raw, keys)|
    requires NamedGroups(raw, keys)[i].binding.featureType == NamedGroups(raw, keys)[j].binding.featureType
    ensures NamedGroups(raw, keys)[i].identifier != NamedGroups(raw, keys)[j].identifier
    decreases |keys|
  {
    var n := |keys| - 1;
    var before := |NamedGroups(raw, keys[..n])|;
    LastGroup(raw, keys, i);
    LastGroup(raw, keys, j);
    if j < before {
      NamesDiffer(raw, keys[..n], i, j);
    } else {
      EntryIs(raw, keys[n], j - before);
      if i < before {
        CrossDiffers(raw, keys[..n], NamedGroups(raw, keys[..n])[i], keys[n], j - before);
      } else {
        GroupDiffers(raw, keys[n], i - before, j - before);
      }
    }
  }

  /** Each binding of a group of several is numbered by its place, a lone one is
      named after its capability. */
  lemma EveryEntryIsThere(raw: seq<Binding>, b: Binding, i: nat)
    requires b in raw && i < SizeOf(raw, KeyOf(b))
    ensures |Sorted(GroupOf(raw, KeyOf(b)))| == SizeOf(raw, KeyOf(b))
    ensures Named(Sorted(GroupOf(raw, KeyOf(b)))[i], NameAt(Cap(b), SizeOf(raw, KeyOf(b)), i + 1)) in Assembled(raw)
  {
    var keys := SortDistinct(KeysOf(raw), StringsLt);
    KeysAreKeys(raw);
    KeysAre(raw, keys);
    SortedKeepsAll(GroupOf(raw, KeyOf(b)));
    var e := Entry(raw, KeyOf(b), i);
    assert KeyOf(b) in keys;
    EntriesAre(raw, keys, e);
  }

  lemma TwoAlike(out: seq<Named>, x: Named, y: Named)
    requires x in out && y in out && x != y
    requires x.binding.featureType == y.binding.featureType && x.identifier == y.identifier
    ensures !DistinctNames(out)
  {
    var i :| 0 <= i < |out| && out[i] == x;
    var j :| 0 <= j < |out| && out[j] == y;
  }

  /** The entry of a binding's group is among the assembled ones. */
  lemma EntryIsThere(raw: seq<Binding>, b: Binding, i: nat)
    requires b in raw && i < SizeOf(raw, KeyOf(b))
    ensures Entry(raw, KeyOf(b), i) in Assembled(raw)
  {
    EveryEntryIsThere(raw, b, i);
  }

  lemma ClashIsSeen(raw: seq<Binding>, b: Binding, c: Binding, index: nat)
    requires Clash(raw, b, c, index)
    ensures !DistinctNames(Assembled(raw))
  {
    EntryIsThere(raw, b, 0);
    EntryIsThere(raw, c, index - 1);
    EntryIs(raw, KeyOf(b), 0);
    EntryIs(raw, KeyOf(c), index - 1);
    var x, y := Entry(raw, KeyOf(b), 0), Entry(raw, KeyOf(c), index - 1);
    assert KeyOf(x.binding) != KeyOf(y.binding);
    TwoAlike(Assembled(raw), x, y);
  }

  /** Identifiers are distinct within each feature type exactly when no lone
      binding is named like a number of a larger group. */
  lemma DistinctExactlyWhen(raw: seq<Binding>)
    ensures DistinctNames(Assembled(raw)) <==> !Clashes(raw)
  {
    if Clashes(raw) {
      var b, c, index :| Clash(raw, b, c, index);
      ClashIsSeen(raw, b, c, index);
    } else {
      var keys := SortDistinct(KeysOf(raw), StringsLt);
      KeysAreKeys(raw);
      KeysAre(raw, keys);
      var out := Assembled(raw);
      forall i, j | 0 <= i < j < |out| && out[i].binding.featureType == out[j].binding.featureType
        ensures out[i].identifier != out[j].identifier
      {
        NamesDiffer(raw, keys, i, j);
      }
    }
  }

  lemma GroupOfThree(a: Binding, b: Binding, c: Binding, key: seq<string>)
    ensures GroupOf([a, b, c], key)
         == (if KeyOf(a) == key then [a] else []) + (if KeyOf(b) == key then [b] else [])
            + (if KeyOf(c) == key then [c] else [])
  {
    assert [a, b, c][..2] == [a, b] && [a, b][..1] == [a] && [a][..0] == [];
    assert GroupOf([a], key) == if KeyOf(a) == key then [a] else [];
  }

  /** Capabilities with underscores can clash: two of `A` beside one `A_1`. */
  lemma ClashExample()
    ensures var rest := JNull;
      var raw := [Binding("service", "A", "A", "r1", "e1", rest), Binding("service", "A", "A", "r2", "e2", rest),
                  Binding("service", "A_1", "A_1", "r3", "e3", rest)];
      !DistinctNames(Assembled(raw))
  {
    var a, b, c := Binding("service", "A", "A", "r1", "e1", JNull), Binding("service", "A", "A", "r2", "e2", JNull),
      Binding("service", "A_1", "A_1", "r3", "e3", JNull);
    assert Cap(c) == "A" + "_" + Dec(1);
    GroupOfThree(a, b, c, KeyOf(a));
    assert KeyOf(c) != KeyOf(a);
    GroupOfThree(a, b, c, KeyOf(c));
    ClashIsSeen([a, b, c], c, a, 1);
  }

  // ------------------------------------------- the bindings the mapping makes

  function Upper(c: char): char {
    if 'a' <= c <= 'z' then (c as int - 'a' as int + 'A' as int) as char else c
  }

  function Lower(c: char): char {
    if 'A' <= c <= 'Z' then (c as int - 'A' as int + 'a' as int) as char else c
  }

  /** `_service_identifier`: the words between underscores, capitalized. */
  function ServiceIdentifier(service: string, first: bool): string {
    if service == "" then ""
    else if service[0] == '_' then ServiceIdentifier(service[1..], true)
    else [if first then Upper(service[0]) else Lower(service[0])] + ServiceIdentifier(service[1..], false)
  }

  const PROPERTIES := ["PowerSwitch", "Brightness", "CurrentTemperature", "TargetTemperature", "LockState"]

  /** A binding as `property_bindings` or `service_bindings` makes it. */
  ghost predicate Mapped(b: Binding) {
    b.identifier in PROPERTIES || exists service :: b.identifier == ServiceIdentifier(service, true)
  }

  lemma {:induction false} ServiceIdentifierIsPlain(service: string, first: bool)
    ensures Plain(ServiceIdentifier(service, first))
  {
    if service == "" {
    } else {
      ServiceIdentifierIsPlain(service[1..], service[0] == '_');
    }
  }

  lemma MappedIsPlain(b: Binding)
    requires Mapped(b)
    ensures Plain(b.identifier)
  {
    if b.identifier !in PROPERTIES {
      var service :| b.identifier == ServiceIdentifier(service, true);
      ServiceIdentifierIsPlain(service, true);
    }
  }

  lemma NumberIsNotPlain(cap: string, index: nat)
    ensures !Plain(cap + "_" + Dec(index))
  {
    assert (cap + "_" + Dec(index))[|cap|] == '_';
  }

  /** Devices assembled from mapped bindings have distinct identifiers in each
      feature type. */
  lemma MappedNamesAreDistinct(raw: seq<Binding>)
    requires forall b | b in raw :: Mapped(b) && b.capability == b.identifier
    ensures DistinctNames(Assembled(raw))
  {
    forall b, c, index ensures !Clash(raw, b, c, index) {
      NumberIsNotPlain(Cap(c), index);
      if b in raw {
        MappedIsPlain(b);
      }
    }
    DistinctExactlyWhen(raw);
  }

  // ------------------------------------------------- the list, on its fields

  /** What groups a binding besides its feature type. */
  function Capability(b: Binding): string {
    if b.capability == "" then b.identifier else b.capability
  }

  predicate Alike(a: Binding, b: Binding) {
    a.featureType == b.featureType && Capability(a) == Capability(b)
  }

  /** How many bindings are grouped with this one. */
  function CountAlike(raw: seq<Binding>, b: Binding): nat {
    if raw == [] then 0
    else CountAlike(raw[..|raw| - 1], b) + (if Alike(raw[|raw| - 1], b) then 1 else 0)
  }

  /** The order of the list: feature type, capability, registry identity, entity. */
  predicate NotAfter(a: Binding, b: Binding) {
    || StringLt(a.featureType, b.featureType)
    || (a.featureType == b.featureType && StringLt(Capability(a), Capability(b)))
    || (Alike(a, b) && StringLt(a.registry, b.registry))
    || (Alike(a, b) && a.registry == b.registry && (StringLt(a.entity, b.entity) || a.entity == b.entity))
  }

  /** The entry is named after its capability, numbered if it is not alone. */
  predicate NamedAs(raw: seq<Binding>, e: Named, place: nat) {
    var n := CountAlike(raw, e.binding);
    && 1 <= place <= n
    && e.identifier == if n == 1 then Capability(e.binding) else Capability(e.binding) + "_" + Dec(place)
  }

  lemma PairLt(a: string, b: string, c: string, d: string)
    ensures StringsLt([a, b], [c, d]) <==> StringLt(a, c) || (a == c && StringLt(b, d))
  {
    StringOrder();
    assert [a, b][1..] == [b] && [c, d][1..] == [d] && [b][1..] == [] && [d][1..] == [];
    assert Lex([b], [d], StringLt) <==> StringLt(b, d);
  }

  lemma {:induction false} CountIsSize(raw: seq<Binding>, b: Binding)
    ensures CountAlike(raw, b) == SizeOf(raw, KeyOf(b))
  {
    if raw == [] {
    } else {
      CountIsSize(raw[..|raw| - 1], b);
    }
  }

  lemma KeysOrder(a: Binding, b: Binding)
    requires StringsLt(KeyOf(a), KeyOf(b))
    ensures NotAfter(a, b) && !Alike(a, b)
  {
    PairLt(a.featureType, Cap(a), b.featureType, Cap(b));
    StringOrder();
  }

  lemma RanksOrder(a: Binding, b: Binding)
    requires KeyOf(a) == KeyOf(b) && !StringsLt(Rank(b), Rank(a))
    ensures NotAfter(a, b) && Alike(a, b)
  {
    PairLt(b.registry, b.entity, a.registry, a.entity);
    StringOrder();
    assert KeyOf(a)[0] == KeyOf(b)[0] && KeyOf(a)[1] == KeyOf(b)[1];
  }

  lemma EntryIsNamed(raw: seq<Binding>, key: seq<string>, i: nat)
    requires IsKey(key) && i < SizeOf(raw, key)
    ensures NamedAs(raw, Entry(raw, key, i), i + 1)
  {
    EntryIs(raw, key, i);
    CountIsSize(raw, Entry(raw, key, i).binding);
  }

  lemma EntriesInOrder(raw: seq<Binding>, key: seq<string>, i: nat, j: nat)
    requires IsKey(key) && i < j < SizeOf(raw, key)
    ensures NotAfter(Entry(raw, key, i).binding, Entry(raw, key, j).binding)
  {
    EntryIs(raw, key, i);
    EntryIs(raw, key, j);
    SortedInOrder(GroupOf(raw, key));
    var group := Sorted(GroupOf(raw, key));
    SortedKeepsAll(GroupOf(raw, key));
    assert Entry(raw, key, i).binding == group[i] && Entry(raw, key, j).binding == group[j];
    RanksOrder(group[i], group[j]);
  }

  /** The place of each entry in its group, and the order of any two. */
  ghost predicate Listed(raw: seq<Binding>, out: seq<Named>, places: seq<nat>) {
    && |places| == |out|
    && (forall i | 0 <= i < |out| :: NamedAs(raw, out[i], places[i]))
    && (forall i, j | 0 <= i < j < |out| ::
          && NotAfter(out[i].binding, out[j].binding)
          && (Alike(out[i].binding, out[j].binding) ==> places[i] < places[j]))
  }

  lemma LaterGroup(raw: seq<Binding>, keys: seq<seq<string>>, i: nat, key: seq<string>, j: nat)
    requires (forall k | k in keys :: IsKey(k)) && IsKey(key) && i < |NamedGroups(raw, keys)| && j < SizeOf(raw, key)
    requires forall k | k in keys :: StringsLt(k, key)
    ensures var a, b := NamedGroups(raw, keys)[i].binding, Entry(raw, key, j).binding; NotAfter(a, b) && !Alike(a, b)
  {
    var e := NamedGroups(raw, keys)[i];
    EntriesAre(raw, keys, e);
    var k: seq<string>, x: nat :| k in keys && x < SizeOf(raw, k) && e == Entry(raw, k, x);
    EntryIs(raw, k, x);
    EntryIs(raw, key, j);
    KeysOrder(e.binding, Entry(raw, key, j).binding);
  }

  lemma GroupListed(raw: seq<Binding>, keys: seq<seq<string>>, places: seq<nat>) returns (more: seq<nat>)
    requires keys != [] && (forall k | k in keys :: IsKey(k)) && StrictlySorted(keys, StringsLt)
    requires Listed(raw, NamedGroups(raw, keys[..|keys| - 1]), places)
    ensures Listed(raw, NamedGroups(raw, keys), more)
  {
    var n := |keys| - 1;
    var before, out := NamedGroups(raw, keys[..n]), NamedGroups(raw, keys);
    assert IsKey(keys[n]);
    more := places + seq(SizeOf(raw, keys[n]), i => i + 1);
    LastGroup(raw, keys, 0);
    forall i | 0 <= i < |out| ensures NamedAs(raw, out[i], more[i]) {
      LastGroup(raw, keys, i);
      if |before| <= i {
        EntryIsNamed(raw, keys[n], i - |before|);
      }
    }
    forall i, j | 0 <= i < j < |out|
      ensures NotAfter(out[i].binding, out[j].binding)
      ensures Alike(out[i].binding, out[j].binding) ==> more[i] < more[j]
    {
      LastGroup(raw, keys, i);
      LastGroup(raw, keys, j);
      if |before| <= i {
        EntriesInOrder(raw, keys[n], i - |before|, j - |before|);
      } else if |before| <= j {
        LaterGroup(raw, keys[..n], i, keys[n], j - |before|);
      }
    }
  }

  lemma {:induction false} GroupsListed(raw: seq<Binding>, keys: seq<seq<string>>) returns (places: seq<nat>)
    requires (forall k | k in keys :: IsKey(k)) && StrictlySorted(keys, StringsLt)
    ensures Listed(raw, NamedGroups(raw, keys), places)
  {
    if keys == [] {
      places := [];
    } else {
      places := GroupsListed(raw, keys[..|keys| - 1]);
      places := GroupListed(raw, keys, places);
    }
  }

  /** The assembled list, on the fields of its bindings: by feature type, then
      capability, then registry identity and entity; a binding alone in its
      group is named after the capability, and several are numbered 1, 2, ... as
      they are listed. */
  lemma AssembledIsListed(raw: seq<Binding>) returns (places: seq<nat>)
    ensures Listed(raw, Assembled(raw), places)
  {
    StringsOrder();
    SortDistinctSorts(KeysOf(raw), StringsLt);
    KeysAreKeys(raw);
    places := GroupsListed(raw, SortDistinct(KeysOf(raw), StringsLt));
  }
}
