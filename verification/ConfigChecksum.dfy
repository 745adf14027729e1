/**
 The config checksum of internal/configchecksum. The hash function is left abstract: what is
 modelled is the text that is fed to it.
 */
module ConfigChecksum {
  import opened Common

  /** A ConfigMap or a Secret. */
  datatype Object = Object(meta: NamespacedName, data: map<string, string>)

  // ---------------------------------------------------------------- order on strings

  predicate StringLess(a: string, b: string) {
    if b == [] then false
    else if a == [] then true
    else a[0] < b[0] || (a[0] == b[0] && StringLess(a[1..], b[1..]))
  }

  lemma {:induction false} StringLessTotal(a: string, b: string)
    ensures a == b || StringLess(a, b) || StringLess(b, a)
    ensures !(StringLess(a, b) && StringLess(b, a)) && !StringLess(a, a)
  {
    if a != [] {
      StringLessTotal(a[1..], if b != [] then b[1..] else []);
      if b != [] && a[0] == b[0] && a[1..] == b[1..] {
        assert a == [a[0]] + a[1..] && b == [b[0]] + b[1..];
      }
    }
  }

  lemma {:induction false} StringLessTransitive(a: string, b: string, c: string)
    requires StringLess(a, b) && StringLess(b, c)
    ensures StringLess(a, c)
  {
    if a != [] && a[0] == b[0] == c[0] {
      StringLessTransitive(a[1..], b[1..], c[1..]);
    }
  }

  /** The usual order of strings: the first difference decides, and a proper prefix comes first. */
  lemma {:induction false} StringLessExactly(a: string, b: string)
    ensures StringLess(a, b) <==> exists i: nat :: FirstDifference(a, b, i) && (i == |a| || a[i] < b[i])
  {
    if a == [] || b == [] {
      assert b != [] ==> FirstDifference(a, b, 0);
    } else {
      StringLessExactly(a[1..], b[1..]);
      if a[0] == b[0] {
        forall i: nat ensures FirstDifference(a, b, i + 1) == FirstDifference(a[1..], b[1..], i) {
          ShiftDifference(a, b, i);
        }
        if i: nat :| FirstDifference(a, b, i) && (i == |a| || a[i] < b[i]) {
          assert i > 0 && FirstDifference(a, b, (i - 1) + 1);
        }
      } else {
        assert FirstDifference(a, b, 0);
      }
    }
  }

  /** The strings agree up to here, and the second one goes on. */
  predicate FirstDifference(a: string, b: string, i: nat) {
    i <= |a| && i < |b| && a[..i] == b[..i] && (i < |a| ==> a[i] != b[i])
  }

  lemma ShiftDifference(a: string, b: string, i: nat)
    requires a != [] && b != [] && a[0] == b[0]
    ensures FirstDifference(a, b, i + 1) == FirstDifference(a[1..], b[1..], i)
  {
    if i < |a| && i + 1 < |b| {
      assert a[..i + 1] == [a[0]] + a[1..][..i] && b[..i + 1] == [b[0]] + b[1..][..i];
      assert a[..i + 1][1..] == a[1..][..i] && b[..i + 1][1..] == b[1..][..i];
    }
  }

  predicate Less(x: NamespacedName, y: NamespacedName) {
    if x.namespace != y.namespace then StringLess(x.namespace, y.namespace) else StringLess(x.name, y.name)
  }

  lemma LessTotal(x: NamespacedName, y: NamespacedName)
    ensures x == y || Less(x, y) || Less(y, x)
    ensures !(Less(x, y) && Less(y, x)) && !Less(x, x)
  {
    StringLessTotal(x.namespace, y.namespace);
    StringLessTotal(x.name, y.name);
    StringLessTotal(x.name, x.name);
  }

  lemma LessTransitive(x: NamespacedName, y: NamespacedName, z: NamespacedName)
    requires Less(x, y) && Less(y, z)
    ensures Less(x, z)
  {
    StringLessTotal(x.namespace, y.namespace);
    if x.namespace == y.namespace && y.namespace == z.namespace {
      StringLessTransitive(x.name, y.name, z.name);
    } else if x.namespace != y.namespace && y.namespace != z.namespace {
      StringLessTransitive(x.namespace, y.namespace, z.namespace);
    }
  }

  // ---------------------------------------------------------------- sorting

  /** No element belongs strictly before an earlier one. */
  predicate SortedObjects(s: seq<Object>) {
    forall i, j :: 0 <= i < j < |s| ==> !Less(s[j].meta, s[i].meta)
  }

  predicate SortedStrings(s: seq<string>) {
    forall i, j :: 0 <= i < j < |s| ==> StringLess(s[i], s[j])
  }

  function InsertObject(x: Object, s: seq<Object>): seq<Object> {
    if s == [] || Less(x.meta, s[0].meta) then [x] + s else [s[0]] + InsertObject(x, s[1..])
  }

  lemma {:induction false} InsertObjectSorts(x: Object, s: seq<Object>)
    requires SortedObjects(s)
    ensures SortedObjects(InsertObject(x, s))
    ensures multiset(InsertObject(x, s)) == multiset(s) + multiset{x}
  {
    if s == [] {
    } else if Less(x.meta, s[0].meta) {
      forall i | 0 <= i < |s| ensures !Less(s[i].meta, x.meta) {
        if Less(s[i].meta, x.meta) {
          LessTransitive(s[i].meta, x.meta, s[0].meta);
          LessTotal(s[i].meta, s[0].meta);
        }
      }
    } else {
      assert s == [s[0]] + s[1..];
      InsertObjectSorts(x, s[1..]);
      var rest := InsertObject(x, s[1..]);
      forall i | 0 <= i < |rest| ensures !Less(rest[i].meta, s[0].meta) {
        assert rest[i] in multiset(rest);
        if rest[i] != x {
          assert rest[i] in s[1..];
        }
      }
    }
  }

  /** sortConfigMaps and sortSecrets: some sorted arrangement of a copy. */
  method SortObjects(unsorted: seq<Object>) returns (sorted: seq<Object>)
    ensures SortedObjects(sorted) && multiset(sorted) == multiset(unsorted)
  {
    sorted := [];
    for i := 0 to |unsorted|
      invariant SortedObjects(sorted) && multiset(sorted) == multiset(unsorted[..i])
    {
      InsertObjectSorts(unsorted[i], sorted);
      assert unsorted[..i + 1] == unsorted[..i] + [unsorted[i]];
      sorted := InsertObject(unsorted[i], sorted);
    }
    assert unsorted[..|unsorted|] == unsorted;
  }

  function InsertString(x: string, s: seq<string>): seq<string> {
    if s == [] || StringLess(x, s[0]) then [x] + s else [s[0]] + InsertString(x, s[1..])
  }

  lemma {:induction false} InsertStringSorts(x: string, s: seq<string>)
    requires SortedStrings(s) && x !in s
    ensures SortedStrings(InsertString(x, s))
    ensures forall y :: y in InsertString(x, s) <==> y == x || y in s
  {
    if s == [] {
    } else if StringLess(x, s[0]) {
      forall i | 1 <= i < |s| ensures StringLess(x, s[i]) {
        StringLessTransitive(x, s[0], s[i]);
      }
    } else {
      assert s == [s[0]] + s[1..];
      StringLessTotal(x, s[0]);
      InsertStringSorts(x, s[1..]);
      var rest := InsertString(x, s[1..]);
      forall i | 0 <= i < |rest| ensures StringLess(s[0], rest[i]) {
        assert rest[i] in rest;
      }
    }
  }

  /** sortKeys: the keys in any order, then sorted. */
  method SortKeys(m: map<string, string>) returns (keys: seq<string>)
    ensures IsKeyOrder(keys, m)
  {
    keys := [];
    var todo := m.Keys;
    while todo != {}
      invariant todo <= m.Keys && SortedStrings(keys)
      invariant forall k :: k in keys <==> k in m && k !in todo
      decreases todo
    {
      var k :| k in todo;
      InsertStringSorts(k, keys);
      keys := InsertString(k, keys);
      todo := todo - {k};
    }
  }

  ghost predicate IsKeyOrder(keys: seq<string>, m: map<string, string>) {
    SortedStrings(keys) && forall k :: k in keys <==> k in m
  }

  // ---------------------------------------------------------------- what the hash is fed

  function KeyText(keys: seq<string>, m: map<string, string>): string
    requires forall k :: k in keys ==> k in m
  {
    if keys == [] then "" else keys[0] + m[keys[0]] + KeyText(keys[1..], m)
  }

  ghost predicate IsMapText(text: string, m: map<string, string>) {
    exists keys :: IsKeyOrder(keys, m) && text == KeyText(keys, m)
  }

  function Joined(parts: seq<string>): string {
    if parts == [] then "" else Joined(parts[..|parts| - 1]) + parts[|parts| - 1]
  }

  /** One part per object, in order. */
  ghost predicate ArePartsOf(parts: seq<string>, objects: seq<Object>) {
    |parts| == |objects| && forall i :: 0 <= i < |parts| ==> IsMapText(parts[i], objects[i].data)
  }

  ghost predicate IsObjectsText(text: string, objects: seq<Object>) {
    exists parts :: ArePartsOf(parts, objects) && text == Joined(parts)
  }

  method AddMap(fed: string, m: map<string, string>) returns (r: string, ghost text: string)
    ensures r == fed + text && IsMapText(text, m)
  {
    var keys := SortKeys(m);
    r := fed;
    for i := 0 to |keys|
      invariant r + KeyText(keys[i..], m) == fed + KeyText(keys, m)
    {
      assert keys[i..][1..] == keys[i + 1..];
      assert r + (keys[i] + m[keys[i]] + KeyText(keys[i + 1..], m))
         == r + keys[i] + m[keys[i]] + KeyText(keys[i + 1..], m);
      r := r + keys[i] + m[keys[i]];
    }
    assert r + "" == r;
    text := KeyText(keys, m);
  }

  lemma PartsAppend(parts: seq<string>, part: string, objects: seq<Object>, i: nat)
    requires i < |objects| && ArePartsOf(parts, objects[..i]) && IsMapText(part, objects[i].data)
    ensures ArePartsOf(parts + [part], objects[..i + 1]) && Joined(parts + [part]) == Joined(parts) + part
  {
    assert (parts + [part])[..|parts|] == parts;
  }

  /** The loop of Calculate over one sorted list. */
  method AddObjects(fed: string, objects: seq<Object>) returns (r: string, ghost text: string)
    ensures r == fed + text && IsObjectsText(text, objects)
  {
    r := fed;
    ghost var parts: seq<string> := [];
    for i := 0 to |objects|
      invariant r == fed + Joined(parts) && ArePartsOf(parts, objects[..i])
    {
      ghost var part;
      r, part := AddMap(r, objects[i].data);
      PartsAppend(parts, part, objects, i);
      assert fed + Joined(parts) + part == fed + (Joined(parts) + part);
      parts := parts + [part];
    }
    assert objects[..|objects|] == objects;
    text := Joined(parts);
  }

  /** A text that Calculate may feed to the hash for these inputs. */
  ghost predicate IsFed(text: string, configMaps: seq<Object>, secrets: seq<Object>) {
    exists cms, scs, a, b ::
      && SortedObjects(cms) && multiset(cms) == multiset(configMaps) && IsObjectsText(a, cms)
      && SortedObjects(scs) && multiset(scs) == multiset(secrets) && IsObjectsText(b, scs)
      && text == a + b
  }

  method Calculate(configMaps: seq<Object>, secrets: seq<Object>, hash: string -> string) returns (checksum: string)
    ensures exists text :: IsFed(text, configMaps, secrets) && checksum == hash(text)
  {
    var cms := SortObjects(configMaps);
    var scs := SortObjects(secrets);
    var fed;
    ghost var a, b;
    fed, a := AddObjects("", cms);
    assert "" + a == a;
    fed, b := AddObjects(fed, scs);
    assert IsFed(fed, configMaps, secrets);
    checksum := hash(fed);
  }

  // ---------------------------------------------------------------- the result depends on the contents only

  lemma {:induction false} KeyOrderUnique(k1: seq<string>, k2: seq<string>)
    requires SortedStrings(k1) && SortedStrings(k2) && forall k :: k in k1 <==> k in k2
    ensures k1 == k2
  {
    assert k2 != [] ==> k2[0] in k2;
    if k1 != [] {
      assert k1[0] in k1 && k1[0] in k2;
      assert k2[0] in k2 && k2[0] in k1;
      var i :| 0 <= i < |k2| && k2[i] == k1[0];
      var j :| 0 <= j < |k1| && k1[j] == k2[0];
      StringLessTotal(k1[0], k2[0]);
      assert k1[0] == k2[0];
      forall k ensures k in k1[1..] <==> k in k2[1..] {
        TailMember(k1, k);
        TailMember(k2, k);
      }
      KeyOrderUnique(k1[1..], k2[1..]);
      assert k1 == [k1[0]] + k1[1..] && k2 == [k2[0]] + k2[1..];
    }
  }

  lemma TailMember(s: seq<string>, k: string)
    requires s != [] && SortedStrings(s)
    ensures k in s[1..] <==> k in s && k != s[0]
  {
    assert s == [s[0]] + s[1..];
    StringLessTotal(s[0], s[0]);
    if k in s[1..] {
      var i :| 1 <= i < |s| && s[i] == k;
    }
  }

  ghost predicate MetaDistinct(s: seq<Object>) {
    forall i, j :: 0 <= i < j < |s| ==> s[i].meta != s[j].meta
  }

  predicate StrictlySorted(s: seq<Object>) {
    forall i, j :: 0 <= i < j < |s| ==> Less(s[i].meta, s[j].meta)
  }

  lemma SortedDistinctIsStrict(s: seq<Object>)
    requires SortedObjects(s) && MetaDistinct(s)
    ensures StrictlySorted(s)
  {
    forall i, j | 0 <= i < j < |s| ensures Less(s[i].meta, s[j].meta) {
      LessTotal(s[i].meta, s[j].meta);
    }
  }

  lemma ObjectTailMember(s: seq<Object>, x: Object)
    requires s != [] && StrictlySorted(s)
    ensures x in s[1..] <==> x in s && x != s[0]
  {
    assert s == [s[0]] + s[1..];
    LessTotal(s[0].meta, s[0].meta);
    if x in s[1..] {
      var i :| 1 <= i < |s| && s[i] == x;
    }
  }

  lemma {:induction false} StrictUnique(s1: seq<Object>, s2: seq<Object>)
    requires StrictlySorted(s1) && StrictlySorted(s2) && forall x :: x in s1 <==> x in s2
    ensures s1 == s2
  {
    assert s2 != [] ==> s2[0] in s2;
    if s1 != [] {
      assert s1[0] in s1 && s1[0] in s2 && s2[0] in s1;
      LessTotal(s1[0].meta, s2[0].meta);
      assert s1[0] == s2[0];
      forall x ensures x in s1[1..] <==> x in s2[1..] {
        ObjectTailMember(s1, x);
        ObjectTailMember(s2, x);
      }
      StrictUnique(s1[1..], s2[1..]);
      assert s1 == [s1[0]] + s1[1..] && s2 == [s2[0]] + s2[1..];
    }
  }

  lemma {:induction false} DistinctCountsOnce(u: seq<Object>, x: Object)
    requires MetaDistinct(u)
    ensures multiset(u)[x] <= 1
  {
    if u != [] {
      assert u == [u[0]] + u[1..];
      DistinctCountsOnce(u[1..], x);
      assert u[0] !in u[1..];
    }
  }

  lemma RepeatCountsTwice(s: seq<Object>, i: nat, j: nat)
    requires i < j < |s| && s[i] == s[j]
    ensures multiset(s)[s[i]] >= 2
  {
    assert s == s[..j] + [s[j]] + s[j + 1..];
    assert s[..j][i] == s[i];
  }

  lemma DistinctPermutes(s: seq<Object>, u: seq<Object>)
    requires multiset(s) == multiset(u) && MetaDistinct(u)
    ensures MetaDistinct(s)
  {
    forall i, j | 0 <= i < j < |s| ensures s[i].meta != s[j].meta {
      assert s[i] in multiset(u) && s[j] in multiset(u);
      DistinctCountsOnce(u, s[i]);
      if s[i] == s[j] {
        RepeatCountsTwice(s, i, j);
      }
    }
  }

  lemma SortUnique(s1: seq<Object>, s2: seq<Object>)
    requires SortedObjects(s1) && SortedObjects(s2) && multiset(s1) == multiset(s2) && MetaDistinct(s1)
    ensures s1 == s2
  {
    DistinctPermutes(s2, s1);
    SortedDistinctIsStrict(s1);
    SortedDistinctIsStrict(s2);
    forall x ensures x in s1 <==> x in s2 {
      assert x in multiset(s1) <==> x in multiset(s2);
    }
    StrictUnique(s1, s2);
  }

  lemma MapTextUnique(t1: string, t2: string, m: map<string, string>)
    requires IsMapText(t1, m) && IsMapText(t2, m)
    ensures t1 == t2
  {
    var k1 :| IsKeyOrder(k1, m) && t1 == KeyText(k1, m);
    var k2 :| IsKeyOrder(k2, m) && t2 == KeyText(k2, m);
    KeyOrderUnique(k1, k2);
  }

  lemma ObjectsTextUnique(t1: string, t2: string, objects: seq<Object>)
    requires IsObjectsText(t1, objects) && IsObjectsText(t2, objects)
    ensures t1 == t2
  {
    var p1 :| ArePartsOf(p1, objects) && t1 == Joined(p1);
    var p2 :| ArePartsOf(p2, objects) && t2 == Joined(p2);
    forall i | 0 <= i < |p1| ensures p1[i] == p2[i] {
      MapTextUnique(p1[i], p2[i], objects[i].data);
    }
    assert p1 == p2;
  }

  lemma SortedTextUnique(s1: seq<Object>, s2: seq<Object>, t1: string, t2: string)
    requires SortedObjects(s1) && SortedObjects(s2) && multiset(s1) == multiset(s2) && MetaDistinct(s1)
    requires IsObjectsText(t1, s1) && IsObjectsText(t2, s2)
    ensures t1 == t2
  {
    SortUnique(s1, s2);
    ObjectsTextUnique(t1, t2, s1);
  }

  /**
   Whatever order the inputs come in, and whatever order sorting and map iteration choose
   where they may, the hash is fed the same text, provided no two config maps and no two
   secrets share namespace and name.
   */
  lemma ChecksumOrderFree(t1: string, t2: string, cms1: seq<Object>, cms2: seq<Object>,
                          scs1: seq<Object>, scs2: seq<Object>)
    requires IsFed(t1, cms1, scs1) && IsFed(t2, cms2, scs2)
    requires multiset(cms1) == multiset(cms2) && multiset(scs1) == multiset(scs2)
    requires MetaDistinct(cms1) && MetaDistinct(scs1)
    ensures t1 == t2
  {
    var c1, s1, a1, b1 :| && SortedObjects(c1) && multiset(c1) == multiset(cms1) && IsObjectsText(a1, c1)
                          && SortedObjects(s1) && multiset(s1) == multiset(scs1) && IsObjectsText(b1, s1)
                          && t1 == a1 + b1;
    var c2, s2, a2, b2 :| && SortedObjects(c2) && multiset(c2) == multiset(cms2) && IsObjectsText(a2, c2)
                          && SortedObjects(s2) && multiset(s2) == multiset(scs2) && IsObjectsText(b2, s2)
                          && t2 == a2 + b2;
    DistinctPermutes(c1, cms1);
    DistinctPermutes(s1, scs1);
    SortedTextUnique(c1, c2, a1, a2);
    SortedTextUnique(s1, s2, b1, b2);
  }

  // ---------------------------------------------------------------- what the text tells of the data

  /** The shape of an object: its name, its keys, and only the length of each value. */
  function Blank(o: Object): Object {
    o.(data := map k | k in o.data :: seq(|o.data[k]|, _ => '?'))
  }

  function Blanks(s: seq<Object>): seq<Object> {
    seq(|s|, i requires 0 <= i < |s| => Blank(s[i]))
  }

  /** Both inputs have objects of the same shapes. */
  ghost predicate ShapesMatch(xs: seq<Object>, ys: seq<Object>) {
    forall o :: o in Blanks(xs) <==> o in Blanks(ys)
  }

  /** Rearranging objects rearranges their shapes. */
  lemma BlanksMember(s: seq<Object>, u: seq<Object>, o: Object)
    requires multiset(s) == multiset(u) && o in Blanks(s)
    ensures o in Blanks(u)
  {
    var i :| 0 <= i < |s| && Blanks(s)[i] == o;
    assert s[i] in multiset(u);
    var j :| 0 <= j < |u| && u[j] == s[i];
    assert Blanks(u)[j] == o;
  }

  /** Sorting lines up objects of the same shape. */
  lemma SortedShapesAlign(s1: seq<Object>, u1: seq<Object>, s2: seq<Object>, u2: seq<Object>)
    requires StrictlySorted(s1) && multiset(s1) == multiset(u1)
    requires StrictlySorted(s2) && multiset(s2) == multiset(u2) && ShapesMatch(u1, u2)
    ensures Blanks(s1) == Blanks(s2)
  {
    forall o ensures o in Blanks(s1) <==> o in Blanks(s2) {
      if o in Blanks(s1) { BlanksMember(s1, u1, o); BlanksMember(u2, s2, o); }
      if o in Blanks(s2) { BlanksMember(s2, u2, o); BlanksMember(u1, s1, o); }
    }
    StrictUnique(Blanks(s1), Blanks(s2));
  }

  lemma {:induction false} KeyTextDetermines(keys: seq<string>, m1: map<string, string>, m2: map<string, string>)
    requires forall k :: k in keys ==> k in m1 && k in m2 && |m1[k]| == |m2[k]|
    ensures |KeyText(keys, m1)| == |KeyText(keys, m2)|
    ensures KeyText(keys, m1) == KeyText(keys, m2) ==> forall k :: k in keys ==> m1[k] == m2[k]
  {
    if keys != [] {
      var k, rest := keys[0], keys[1..];
      KeyTextDetermines(rest, m1, m2);
      if KeyText(keys, m1) == KeyText(keys, m2) {
        SplitEqual(k + m1[k], KeyText(rest, m1), k + m2[k], KeyText(rest, m2));
        SplitEqual(k, m1[k], k, m2[k]);
        assert keys == [k] + rest;
      }
    }
  }

  lemma SplitEqual(a1: string, b1: string, a2: string, b2: string)
    requires |a1| == |a2| && a1 + b1 == a2 + b2
    ensures a1 == a2 && b1 == b2
  {
    assert a1 == (a1 + b1)[..|a1|] && a2 == (a2 + b2)[..|a2|];
    assert b1 == (a1 + b1)[|a1|..] && b2 == (a2 + b2)[|a2|..];
  }

  lemma MapTextDetermines(t1: string, t2: string, x: Object, y: Object)
    requires IsMapText(t1, x.data) && IsMapText(t2, y.data) && Blank(x) == Blank(y)
    ensures |t1| == |t2| && (t1 == t2 ==> x == y)
  {
    var k1 :| IsKeyOrder(k1, x.data) && t1 == KeyText(k1, x.data);
    var k2 :| IsKeyOrder(k2, y.data) && t2 == KeyText(k2, y.data);
    forall k ensures k in x.data <==> k in y.data {
      assert k in Blank(x).data <==> k in Blank(y).data;
    }
    forall k | k in x.data ensures |x.data[k]| == |y.data[k]| {
      assert |Blank(x).data[k]| == |x.data[k]| && |Blank(y).data[k]| == |y.data[k]|;
    }
    KeyOrderUnique(k1, k2);
    KeyTextDetermines(k1, x.data, y.data);
    if t1 == t2 {
      assert x.data == y.data;
    }
  }

  /** Parts of known lengths can be read back. */
  lemma {:induction false} JoinedDetermines(p1: seq<string>, p2: seq<string>)
    requires |p1| == |p2| && forall i :: 0 <= i < |p1| ==> |p1[i]| == |p2[i]|
    ensures |Joined(p1)| == |Joined(p2)| && (Joined(p1) == Joined(p2) ==> p1 == p2)
  {
    if p1 != [] {
      var n := |p1| - 1;
      JoinedDetermines(p1[..n], p2[..n]);
      if Joined(p1) == Joined(p2) {
        SplitEqual(Joined(p1[..n]), p1[n], Joined(p2[..n]), p2[n]);
        assert p1 == p1[..n] + [p1[n]] && p2 == p2[..n] + [p2[n]];
      }
    }
  }

  lemma ObjectsTextDetermines(t1: string, t2: string, s1: seq<Object>, s2: seq<Object>)
    requires IsObjectsText(t1, s1) && IsObjectsText(t2, s2) && Blanks(s1) == Blanks(s2)
    ensures |t1| == |t2| && (t1 == t2 ==> s1 == s2)
  {
    var p1 :| ArePartsOf(p1, s1) && t1 == Joined(p1);
    var p2 :| ArePartsOf(p2, s2) && t2 == Joined(p2);
    assert |Blanks(s1)| == |s1| && |Blanks(s2)| == |s2|;
    forall i | 0 <= i < |p1| ensures |p1[i]| == |p2[i]| && (p1[i] == p2[i] ==> s1[i] == s2[i]) {
      assert Blanks(s1)[i] == Blanks(s2)[i];
      MapTextDetermines(p1[i], p2[i], s1[i], s2[i]);
    }
    JoinedDetermines(p1, p2);
  }

  lemma SortedTextDetermines(s1: seq<Object>, u1: seq<Object>, t1: string, s2: seq<Object>, u2: seq<Object>, t2: string)
    requires SortedObjects(s1) && multiset(s1) == multiset(u1) && MetaDistinct(u1) && IsObjectsText(t1, s1)
    requires SortedObjects(s2) && multiset(s2) == multiset(u2) && MetaDistinct(u2) && IsObjectsText(t2, s2)
    requires ShapesMatch(u1, u2)
    ensures |t1| == |t2| && (t1 == t2 ==> multiset(u1) == multiset(u2))
  {
    DistinctPermutes(s1, u1);
    DistinctPermutes(s2, u2);
    SortedDistinctIsStrict(s1);
    SortedDistinctIsStrict(s2);
    SortedShapesAlign(s1, u1, s2, u2);
    ObjectsTextDetermines(t1, t2, s1, s2);
  }

  /**
   Among inputs of one shape (the same objects with the same keys and value lengths) the text
   fed to the hash tells the data apart: it is the same if and only if the inputs hold the same
   config maps and the same secrets, in whatever order.
   */
  lemma TextDeterminesDataOfShape(t1: string, t2: string, cms1: seq<Object>, cms2: seq<Object>,
                                  scs1: seq<Object>, scs2: seq<Object>)
    requires IsFed(t1, cms1, scs1) && IsFed(t2, cms2, scs2)
    requires MetaDistinct(cms1) && MetaDistinct(scs1) && MetaDistinct(cms2) && MetaDistinct(scs2)
    requires ShapesMatch(cms1, cms2) && ShapesMatch(scs1, scs2)
    ensures t1 == t2 <==> multiset(cms1) == multiset(cms2) && multiset(scs1) == multiset(scs2)
  {
    var c1, s1, a1, b1 :| && SortedObjects(c1) && multiset(c1) == multiset(cms1) && IsObjectsText(a1, c1)
                          && SortedObjects(s1) && multiset(s1) == multiset(scs1) && IsObjectsText(b1, s1)
                          && t1 == a1 + b1;
    var c2, s2, a2, b2 :| && SortedObjects(c2) && multiset(c2) == multiset(cms2) && IsObjectsText(a2, c2)
                          && SortedObjects(s2) && multiset(s2) == multiset(scs2) && IsObjectsText(b2, s2)
                          && t2 == a2 + b2;
    SortedTextDetermines(c1, cms1, a1, c2, cms2, a2);
    SortedTextDetermines(s1, scs1, b1, s2, scs2, b2);
    if t1 == t2 {
      SplitEqual(a1, b1, a2, b2);
    }
    if multiset(cms1) == multiset(cms2) && multiset(scs1) == multiset(scs2) {
      ChecksumOrderFree(t1, t2, cms1, cms2, scs1, scs2);
    }
  }

  lemma OneConfigMapFed(o: Object, text: string)
    requires IsMapText(text, o.data)
    ensures IsFed(text, [o], []) && MetaDistinct([o])
  {
    var none: seq<Object> := [];
    SingleText(o, text);
    assert ArePartsOf([], none);
    FedBy([o], [o], text, none, "");
    assert text == text + "";
  }

  lemma SingleEntryText(key: string, value: string)
    ensures IsMapText(key + value, map[key := value])
  {
    var m := map[key := value];
    assert IsKeyOrder([key], m);
    assert KeyText([key], m) == key + value + KeyText([key][1..], m) == key + value;
  }

  /**
   The format in one instance: config maps come ahead of secrets, and are ordered by namespace
   first and by name within one; of each entry the key comes ahead of the value.
   */
  lemma FedFormat(configMaps: seq<Object>, o1: Object, o2: Object, secret: Object,
                  t1: string, t2: string, t3: string)
    requires StringLess(o1.meta.namespace, o2.meta.namespace)
             || (o1.meta.namespace == o2.meta.namespace && StringLess(o1.meta.name, o2.meta.name))
    requires multiset(configMaps) == multiset([o1, o2])
    requires IsMapText(t1, o1.data) && IsMapText(t2, o2.data) && IsMapText(t3, secret.data)
    ensures IsFed(t1 + t2 + t3, configMaps, [secret])
  {
    PairSorted(o1, o2);
    PairText(o1, o2, t1, t2);
    SingleText(secret, t3);
    FedBy([o1, o2], configMaps, t1 + t2, [secret], t3);
  }

  lemma FedBy(cms: seq<Object>, configMaps: seq<Object>, a: string, secrets: seq<Object>, b: string)
    requires SortedObjects(cms) && multiset(cms) == multiset(configMaps) && IsObjectsText(a, cms)
    requires SortedObjects(secrets) && IsObjectsText(b, secrets)
    ensures IsFed(a + b, configMaps, secrets)
  {
  }

  lemma PairSorted(o1: Object, o2: Object)
    requires StringLess(o1.meta.namespace, o2.meta.namespace)
             || (o1.meta.namespace == o2.meta.namespace && StringLess(o1.meta.name, o2.meta.name))
    ensures SortedObjects([o1, o2])
  {
    StringLessTotal(o1.meta.namespace, o2.meta.namespace);
    LessTotal(o1.meta, o2.meta);
  }

  lemma SingleText(o: Object, text: string)
    requires IsMapText(text, o.data)
    ensures IsObjectsText(text, [o]) && SortedObjects([o])
  {
    assert ArePartsOf([text], [o]);
    assert Joined([text]) == Joined([text][..0]) + text == text;
  }

  lemma PairText(o1: Object, o2: Object, t1: string, t2: string)
    requires IsMapText(t1, o1.data) && IsMapText(t2, o2.data)
    ensures IsObjectsText(t1 + t2, [o1, o2])
  {
    assert ArePartsOf([t1, t2], [o1, o2]);
    assert [t1, t2][..1] == [t1];
    assert Joined([t1]) == Joined([t1][..0]) + t1 == t1;
  }

  /** Across shapes it does not: there are no delimiters, so two inputs with other keys can feed the same text. */
  lemma ChecksumNotInjective()
    ensures exists cms1: seq<Object>, cms2, text ::
              && MetaDistinct(cms1) && MetaDistinct(cms2) && multiset(cms1) != multiset(cms2)
              && IsFed(text, cms1, []) && IsFed(text, cms2, [])
  {
    SingleEntryText("a", "b");
    SingleEntryText("ab", "");
    assert "a" + "b" == "ab" + "" == "ab";
    var meta := NamespacedName("default", "c");
    var o1, o2 := Object(meta, map["a" := "b"]), Object(meta, map["ab" := ""]);
    OneConfigMapFed(o1, "ab");
    OneConfigMapFed(o2, "ab");
    assert "a" in o1.data && "a" !in o2.data;
    assert o1 in multiset([o1]) && o1 !in multiset([o2]);
  }
}
