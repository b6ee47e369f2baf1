/** JSON with the members of every object sorted by key, as it is digested for approval. */
module CanonicalJson {
  import opened Basics
  import opened Texts

  datatype Json =
    | Null
    | Boolean(flag: bool)
    | Number(digits: Text)
    | String(text: Text)
    | Array(items: seq<Json>)
    | Object(members: seq<Member>)

  datatype Member = Member(key: Text, value: Json)

  // Order of keys.

  /** Byte-wise lexicographic order, with a prefix first. */
  predicate Leq(a: Text, b: Text) {
    a == "" || (b != "" && (a[0] < b[0] || (a[0] == b[0] && Leq(a[1..], b[1..]))))
  }

  /** One is a prefix of the other, or the first place where they differ decides. */
  lemma {:induction false} LeqExactly(a: Text, b: Text)
    ensures Leq(a, b) <==>
      exists k :: 0 <= k <= |a| && k <= |b| && a[..k] == b[..k] && (k == |a| || (k < |b| && a[k] < b[k]))
  {
    if a != "" && b != "" && a[0] == b[0] {
      LeqExactly(a[1..], b[1..]);
      if Leq(a, b) {
        var k :| 0 <= k <= |a[1..]| && k <= |b[1..]| && a[1..][..k] == b[1..][..k]
                 && (k == |a[1..]| || (k < |b[1..]| && a[1..][k] < b[1..][k]));
        assert a[..k + 1] == [a[0]] + a[1..][..k] && b[..k + 1] == [b[0]] + b[1..][..k];
      }
      if k :| 0 <= k <= |a| && k <= |b| && a[..k] == b[..k] && (k == |a| || (k < |b| && a[k] < b[k])) {
        assert k > 0;
        assert a[1..][..k - 1] == a[..k][1..] && b[1..][..k - 1] == b[..k][1..];
      }
    } else if a == "" {
      assert a[..0] == b[..0];
    } else if b != "" {
      assert a[..0] == b[..0];
      assert forall k :: 0 < k <= |a| && k <= |b| ==> a[..k][0] != b[..k][0];
    }
  }

  lemma {:induction false} LeqTotal(a: Text, b: Text)
    ensures Leq(a, b) || Leq(b, a)
  {
    if a != "" && b != "" && a[0] == b[0] {
      LeqTotal(a[1..], b[1..]);
    }
  }

  lemma {:induction false} LeqAntisymmetric(a: Text, b: Text)
    requires Leq(a, b) && Leq(b, a)
    ensures a == b
  {
    if a != "" {
      LeqAntisymmetric(a[1..], b[1..]);
      assert a == [a[0]] + a[1..] && b == [b[0]] + b[1..];
    }
  }

  lemma {:induction false} LeqTransitive(a: Text, b: Text, c: Text)
    requires Leq(a, b) && Leq(b, c)
    ensures Leq(a, c)
  {
    if a != "" && a[0] == b[0] == c[0] {
      LeqTransitive(a[1..], b[1..], c[1..]);
    }
  }

  // Objects as maps from keys to values.

  /** No key occurs twice. */
  ghost predicate Distinct(ms: seq<Member>) {
    forall i, j :: 0 <= i < j < |ms| ==> ms[i].key != ms[j].key
  }

  function Get(ms: seq<Member>, key: Text): Option<Json> {
    if ms == [] then None else if ms[0].key == key then Some(ms[0].value) else Get(ms[1..], key)
  }

  ghost predicate Ordered(ms: seq<Member>) {
    forall i, j :: 0 <= i < j < |ms| ==> Leq(ms[i].key, ms[j].key) && ms[i].key != ms[j].key
  }

  function Insert(m: Member, ms: seq<Member>): seq<Member> {
    if ms == [] then [m]
    else if Leq(m.key, ms[0].key) then [m] + ms
    else [ms[0]] + Insert(m, ms[1..])
  }

  function Sort(ms: seq<Member>): seq<Member> {
    if ms == [] then [] else Insert(ms[0], Sort(ms[1..]))
  }

  lemma {:induction false} GetMissing(ms: seq<Member>, key: Text)
    ensures Get(ms, key) == None <==> forall i :: 0 <= i < |ms| ==> ms[i].key != key
  {
    if ms != [] {
      GetMissing(ms[1..], key);
      assert forall i :: 1 <= i < |ms| ==> ms[i] == ms[1..][i - 1];
      assert forall i :: 0 <= i < |ms[1..]| ==> ms[1..][i] == ms[i + 1];
    }
  }

  lemma {:induction false} GetAt(ms: seq<Member>, i: nat)
    requires Distinct(ms) && i < |ms|
    ensures Get(ms, ms[i].key) == Some(ms[i].value)
  {
    if i > 0 {
      assert ms[1..][i - 1] == ms[i];
      GetAt(ms[1..], i - 1);
    }
  }

  lemma {:induction false} GetPresent(ms: seq<Member>, key: Text) returns (i: nat)
    requires Get(ms, key).Some?
    ensures i < |ms| && ms[i].key == key && Get(ms, key) == Some(ms[i].value)
  {
    if ms[0].key == key {
      i := 0;
    } else {
      var j := GetPresent(ms[1..], key);
      i := j + 1;
    }
  }

  lemma {:induction false} InsertGets(m: Member, ms: seq<Member>, key: Text)
    requires Get(ms, m.key) == None
    ensures Get(Insert(m, ms), key) == if key == m.key then Some(m.value) else Get(ms, key)
  {
    if ms != [] {
      if Leq(m.key, ms[0].key) {
        assert ([m] + ms)[1..] == ms;
      } else {
        InsertGets(m, ms[1..], key);
        assert ([ms[0]] + Insert(m, ms[1..]))[1..] == Insert(m, ms[1..]);
      }
    }
  }

  lemma {:induction false} InsertOrdered(m: Member, ms: seq<Member>)
    requires Ordered(ms) && Get(ms, m.key) == None
    ensures Ordered(Insert(m, ms))
  {
    if ms != [] {
      GetMissing(ms, m.key);
      if Leq(m.key, ms[0].key) {
        forall j | 0 <= j < |ms|
          ensures Leq(m.key, ms[j].key)
        {
          if j > 0 {
            LeqTransitive(m.key, ms[0].key, ms[j].key);
          }
        }
      } else {
        var rest := Insert(m, ms[1..]);
        GetMissing(ms[1..], m.key);
        InsertOrdered(m, ms[1..]);
        forall j | 0 <= j < |rest|
          ensures Leq(ms[0].key, rest[j].key) && ms[0].key != rest[j].key
        {
          InsertMember(m, ms[1..], j);
          LeqTotal(m.key, ms[0].key);
        }
      }
    }
  }

  /** An inserted list holds the new member and the old ones. */
  lemma {:induction false} InsertMember(m: Member, ms: seq<Member>, j: nat)
    requires j < |Insert(m, ms)|
    ensures |Insert(m, ms)| == |ms| + 1
    ensures Insert(m, ms)[j] == m || exists i :: 0 <= i < |ms| && ms[i] == Insert(m, ms)[j]
  {
    if ms != [] && !Leq(m.key, ms[0].key) {
      if j > 0 {
        InsertMember(m, ms[1..], j - 1);
      } else {
        InsertMember(m, ms[1..], 0);
        assert ms[0] == Insert(m, ms)[0];
      }
    } else if ms != [] && j > 0 {
      assert Insert(m, ms)[j] == ms[j - 1];
    }
  }

  /** Sorting orders the members and changes no lookup. */
  lemma {:induction false} SortSorts(ms: seq<Member>, key: Text)
    requires Distinct(ms)
    ensures Ordered(Sort(ms)) && |Sort(ms)| == |ms| && Get(Sort(ms), key) == Get(ms, key)
  {
    if ms != [] {
      var m := ms[0];
      SortSorts(ms[1..], key);
      SortSorts(ms[1..], m.key);
      GetMissing(ms[1..], m.key);
      InsertOrdered(m, Sort(ms[1..]));
      InsertGets(m, Sort(ms[1..]), key);
      InsertMember(m, Sort(ms[1..]), 0);
    }
  }

  /** Two ordered lists with the same lookups are the same list. */
  lemma {:induction false} OrderedUnique(a: seq<Member>, b: seq<Member>)
    requires Ordered(a) && Ordered(b) && forall k :: Get(a, k) == Get(b, k)
    ensures a == b
    decreases |a|
  {
    SameEmptiness(a, b);
    if a != [] {
      FirstKeys(a, b);
      FirstKeys(b, a);
      LeqAntisymmetric(a[0].key, b[0].key);
      assert Get(a, a[0].key) == Get(b, a[0].key);
      forall k
        ensures Get(a[1..], k) == Get(b[1..], k)
      {
        assert Get(a, k) == Get(b, k);
        if k == a[0].key {
          GetMissing(a[1..], k);
          GetMissing(b[1..], k);
        }
      }
      OrderedUnique(a[1..], b[1..]);
      assert a == [a[0]] + a[1..] && b == [b[0]] + b[1..];
    }
  }

  lemma {:induction false} SameEmptiness(a: seq<Member>, b: seq<Member>)
    requires forall k :: Get(a, k) == Get(b, k)
    ensures a == [] <==> b == []
  {
    if a != [] {
      assert Get(b, a[0].key).Some?;
    }
    if b != [] {
      assert Get(a, b[0].key).Some?;
    }
  }

  lemma {:induction false} FirstKeys(a: seq<Member>, b: seq<Member>)
    requires a != [] && b != [] && Ordered(a) && Get(a, b[0].key).Some?
    ensures Leq(a[0].key, b[0].key)
  {
    var i := GetPresent(a, b[0].key);
    LeqTotal(a[0].key, a[0].key);
  }

  // The canonical form.

  /** Every object in the value has distinct keys. */
  ghost predicate WellFormed(v: Json) {
    match v
    case Array(items) => forall i :: 0 <= i < |items| ==> WellFormed(items[i])
    case Object(ms) => Distinct(ms) && forall i :: 0 <= i < |ms| ==> WellFormed(ms[i].value)
    case _ => true
  }

  function Sorted(v: Json): Json
    decreases v, 1
  {
    match v
    case Array(items) => Array(seq(|items|, i requires 0 <= i < |items| => Sorted(items[i])))
    case Object(ms) => Object(Sort(SortedMembers(v)))
    case _ => v
  }

  /** An object's members, in their order, with sorted values. */
  function SortedMembers(v: Json): seq<Member>
    requires v.Object?
    decreases v, 0
  {
    seq(|v.members|, i requires 0 <= i < |v.members| => Member(v.members[i].key, Sorted(v.members[i].value)))
  }

  function SortedOption(v: Option<Json>): Option<Json> {
    if v.Some? then Some(Sorted(v.value)) else None
  }

  lemma {:induction false} SortedMembersGet(ms: seq<Member>, key: Text)
    ensures Get(SortedMembers(Object(ms)), key) == SortedOption(Get(ms, key))
  {
    if ms != [] {
      SortedMembersGet(ms[1..], key);
      assert SortedMembers(Object(ms))[1..] == SortedMembers(Object(ms[1..]));
    }
  }

  /** Each lookup in a sorted object finds the sorted form of what it found before. */
  lemma {:induction false} SortedGet(ms: seq<Member>, key: Text)
    requires Distinct(ms)
    ensures Get(Sort(SortedMembers(Object(ms))), key) == SortedOption(Get(ms, key))
    ensures Ordered(Sort(SortedMembers(Object(ms))))
  {
    SortSorts(SortedMembers(Object(ms)), key);
    SortedMembersGet(ms, key);
  }

  // Lookups at every depth.

  datatype Step = Key(key: Text) | Index(index: nat)

  function Child(v: Json, step: Step): Option<Json> {
    match v
    case Array(items) => if step.Index? && step.index < |items| then Some(items[step.index]) else None
    case Object(ms) => if step.Key? then Get(ms, step.key) else None
    case _ => None
  }

  function Resolve(v: Json, path: seq<Step>): Option<Json>
    decreases |path|
  {
    if path == [] then Some(v)
    else
      var child := Child(v, path[0]);
      if child.None? then None else Resolve(child.value, path[1..])
  }

  lemma {:induction false} ChildSorted(v: Json, step: Step)
    requires WellFormed(v)
    ensures Child(Sorted(v), step) == SortedOption(Child(v, step))
    ensures Child(v, step).Some? ==> WellFormed(Child(v, step).value)
  {
    if v.Object? && step.Key? {
      SortedGet(v.members, step.key);
      if Get(v.members, step.key).Some? {
        var i := GetPresent(v.members, step.key);
      }
    }
  }

  /** Along every path, the canonical value has the canonical form of what the value has there. */
  lemma {:induction false} SortedPreservesLookups(v: Json, path: seq<Step>)
    requires WellFormed(v)
    ensures Resolve(Sorted(v), path) == SortedOption(Resolve(v, path))
    decreases |path|
  {
    if path != [] {
      ChildSorted(v, path[0]);
      if Child(v, path[0]).Some? {
        SortedPreservesLookups(Child(v, path[0]).value, path[1..]);
      }
    }
  }

  // Equality up to key order.

  ghost predicate SameKeys(ms: seq<Member>, ns: seq<Member>) {
    forall k :: Get(ms, k).Some? <==> Get(ns, k).Some?
  }

  ghost predicate Equivalent(a: Json, b: Json) {
    match a
    case Array(items) =>
      b.Array? && |items| == |b.items| && forall i :: 0 <= i < |items| ==> Equivalent(items[i], b.items[i])
    case Object(ms) =>
      && b.Object? && SameKeys(ms, b.members)
      && (forall i, j :: 0 <= i < |ms| && 0 <= j < |b.members| && ms[i].key == b.members[j].key ==>
            Equivalent(ms[i].value, b.members[j].value))
    case _ => a == b
  }

  /** Equal canonical forms exactly when equal up to the order of keys. */
  lemma {:induction false} SortedDecides(a: Json, b: Json)
    requires WellFormed(a) && WellFormed(b)
    ensures Sorted(a) == Sorted(b) <==> Equivalent(a, b)
    decreases a, 1
  {
    if a.Array? && b.Array? {
      ArraysDecide(a, b);
    } else if a.Object? && b.Object? {
      if Sorted(a) == Sorted(b) {
        SortedImplies(a, b);
      }
      if Equivalent(a, b) {
        EquivalentImplies(a, b);
      }
    }
  }

  lemma {:induction false} ArraysDecide(a: Json, b: Json)
    requires a.Array? && b.Array? && WellFormed(a) && WellFormed(b)
    ensures Sorted(a) == Sorted(b) <==> Equivalent(a, b)
    decreases a, 0
  {
    if |a.items| == |b.items| {
      forall i | 0 <= i < |a.items|
        ensures Sorted(a).items[i] == Sorted(b).items[i] <==> Equivalent(a.items[i], b.items[i])
      {
        SortedDecides(a.items[i], b.items[i]);
      }
      assert Sorted(a).items == Sorted(b).items <==> forall i :: 0 <= i < |a.items| ==>
          Sorted(a).items[i] == Sorted(b).items[i];
    } else {
      assert |Sorted(a).items| != |Sorted(b).items|;
    }
  }

  lemma {:induction false} SortedImplies(a: Json, b: Json)
    requires a.Object? && b.Object? && WellFormed(a) && WellFormed(b)
    requires Sort(SortedMembers(a)) == Sort(SortedMembers(b))
    ensures Equivalent(a, b)
    decreases a, 0
  {
    var ms, ns := a.members, b.members;
    forall k
      ensures SortedOption(Get(ms, k)) == SortedOption(Get(ns, k))
    {
      SortedGet(ms, k);
      SortedGet(ns, k);
    }
    assert SameKeys(ms, ns) by {
      assert forall k :: Get(ms, k).Some? <==> SortedOption(Get(ms, k)).Some?;
    }
    forall i, j | 0 <= i < |ms| && 0 <= j < |ns| && ms[i].key == ns[j].key
      ensures Equivalent(ms[i].value, ns[j].value)
    {
      GetAt(ms, i);
      GetAt(ns, j);
      SortedDecides(ms[i].value, ns[j].value);
    }
  }

  lemma {:induction false} EquivalentImplies(a: Json, b: Json)
    requires a.Object? && b.Object? && WellFormed(a) && WellFormed(b) && Equivalent(a, b)
    ensures Sort(SortedMembers(a)) == Sort(SortedMembers(b))
    decreases a, 0
  {
    var ms, ns := a.members, b.members;
    forall k
      ensures Get(Sort(SortedMembers(Object(ms))), k) == Get(Sort(SortedMembers(Object(ns))), k)
    {
      SortedGet(ms, k);
      SortedGet(ns, k);
      if Get(ms, k).Some? {
        var i := GetPresent(ms, k);
        var j := GetPresent(ns, k);
        SortedDecides(ms[i].value, ns[j].value);
      }
    }
    SortedGet(ms, "");
    SortedGet(ns, "");
    OrderedUnique(Sort(SortedMembers(Object(ms))), Sort(SortedMembers(Object(ns))));
  }

  // The canonical form is a fixed point.

  /** Every member of a sorted object is the sorted form of a member of the object. */
  lemma {:induction false} SortedFrom(ms: seq<Member>, i: nat) returns (j: nat)
    requires Distinct(ms) && i < |Sort(SortedMembers(Object(ms)))|
    ensures j < |ms| && Sort(SortedMembers(Object(ms)))[i] == Member(ms[j].key, Sorted(ms[j].value))
  {
    var m := Sort(SortedMembers(Object(ms)))[i];
    SortedGet(ms, m.key);
    GetAt(Sort(SortedMembers(Object(ms))), i);
    j := GetPresent(ms, m.key);
  }

  /** Canonicalising twice is canonicalising once. */
  lemma {:induction false} SortedIdempotent(v: Json)
    requires WellFormed(v)
    ensures Sorted(Sorted(v)) == Sorted(v)
  {
    match v
    case Array(items) =>
      forall i | 0 <= i < |items|
        ensures Sorted(Sorted(items[i])) == Sorted(items[i])
      {
        SortedIdempotent(items[i]);
      }
      assert Sorted(Sorted(v)).items == Sorted(v).items;
    case Object(ms) =>
      var sorted := Sort(SortedMembers(Object(ms)));
      SortedGet(ms, "");
      forall i | 0 <= i < |sorted|
        ensures SortedMembers(Object(sorted))[i] == sorted[i]
      {
        var j := SortedFrom(ms, i);
        SortedIdempotent(ms[j].value);
      }
      assert SortedMembers(Object(sorted)) == sorted;
      OrderedIsSorted(sorted);
    case _ =>
  }

  lemma {:induction false} OrderedIsSorted(ms: seq<Member>)
    requires Ordered(ms)
    ensures Sort(ms) == ms
  {
    forall k
      ensures Get(Sort(ms), k) == Get(ms, k)
    {
      SortSorts(ms, k);
    }
    SortSorts(ms, "");
    OrderedUnique(Sort(ms), ms);
  }
}
