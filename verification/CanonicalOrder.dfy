/** Key order never changes the canonical text, and nothing else leaves it unchanged
    (stableStringify in src/modules/audit/audit-integrity.ts). */
module CanonicalOrder {
  import opened CanonicalJson

  // ---- The key order is a strict total order ---------------------------------------------------------------

  lemma {:induction false} LessIsTotal(a: Text, b: Text)
    ensures Less(a, b) || Less(b, a) || a == b
    ensures !(Less(a, b) && Less(b, a)) && !Less(a, a)
  {
    if a != [] {
      LessIsTotal(a[1..], a[1..]);
      if b != [] && a[0] == b[0] {
        LessIsTotal(a[1..], b[1..]);
        assert a == [a[0]] + a[1..] && b == [b[0]] + b[1..];
      }
    }
  }

  lemma {:induction false} LessIsTransitive(a: Text, b: Text, c: Text)
    requires Less(a, b) && Less(b, c)
    ensures Less(a, c)
  {
    if a != [] && a[0] == b[0] == c[0] {
      LessIsTransitive(a[1..], b[1..], c[1..]);
    }
  }

  ghost predicate StrictlySorted(ms: seq<Member>) {
    forall i, j | 0 <= i < j < |ms| :: Less(ms[i].key, ms[j].key)
  }

  lemma {:induction false} InsertSorts(m: Member, ms: seq<Member>)
    requires StrictlySorted(ms) && forall n | n in ms :: n.key != m.key
    ensures StrictlySorted(InsertMember(m, ms))
    ensures forall n :: n in InsertMember(m, ms) <==> n == m || n in ms
  {
    if ms != [] {
      var rest := ms[1..];
      assert ms == [ms[0]] + rest;
      LessIsTotal(ms[0].key, m.key);
      assert ms[0] in ms;
      if Less(ms[0].key, m.key) {
        InsertSorts(m, rest);
        assert forall n | n in InsertMember(m, rest) :: Less(ms[0].key, n.key);
      } else {
        forall n | n in ms
          ensures Less(m.key, n.key)
        {
          if n != ms[0] {
            LessIsTransitive(m.key, ms[0].key, n.key);
          }
        }
      }
    }
  }

  lemma {:induction false} SortSorts(ms: seq<Member>)
    requires DistinctKeys(ms)
    ensures StrictlySorted(SortMembers(ms))
    ensures forall n :: n in SortMembers(ms) <==> n in ms
  {
    if ms != [] {
      SortSorts(ms[1..]);
      assert ms == [ms[0]] + ms[1..];
      InsertSorts(ms[0], SortMembers(ms[1..]));
    }
  }

  lemma FirstIsMember(ns: seq<Member>)
    ensures ns != [] ==> ns[0] in ns
  {
  }

  /** A strictly sorted list is determined by what it contains. */
  lemma {:induction false} SortedIsUnique(ms: seq<Member>, ns: seq<Member>)
    requires StrictlySorted(ms) && StrictlySorted(ns)
    requires forall n :: n in ms <==> n in ns
    ensures ms == ns
  {
    FirstIsMember(ns);
    if ms != [] {
      assert ms[0] in ns;
      assert ns[0] in ms;
      var i :| 0 <= i < |ns| && ns[i] == ms[0];
      var j :| 0 <= j < |ms| && ms[j] == ns[0];
      LessIsTotal(ms[0].key, ns[0].key);
      assert i == 0;
      assert ms == [ms[0]] + ms[1..] && ns == [ns[0]] + ns[1..];
      LessIsTotal(ms[0].key, ms[0].key);
      forall n ensures n in ms[1..] <==> n in ns[1..] {
        assert n in ms <==> n == ms[0] || n in ms[1..];
        assert n in ns <==> n == ns[0] || n in ns[1..];
        assert ms[0] !in ms[1..] && ns[0] !in ns[1..];
      }
      SortedIsUnique(ms[1..], ns[1..]);
    }
  }

  // ---- Canonical values ------------------------------------------------------------------------------------

  /** The canonical form is a well-formed value equivalent to the original. */
  lemma {:induction false} CanonicalIsWellFormed(v: Json)
    requires WellFormed(v)
    ensures WellFormed(Canonical(v))
  {
    match v
    case Array(es) =>
      forall i | 0 <= i < |es| ensures WellFormed(Canonical(es[i])) { CanonicalIsWellFormed(es[i]); }
    case Object(ms) =>
      var cs := CanonicalMembers(ms);
      var sorted := SortMembers(cs);
      SortSorts(cs);
      forall i | 0 <= i < |sorted|
        ensures WellFormed(sorted[i].value)
      {
        assert sorted[i] in sorted && sorted[i] in cs;
        var k :| 0 <= k < |cs| && cs[k] == sorted[i];
        CanonicalIsWellFormed(ms[k].value);
      }
      forall i, j | 0 <= i < j < |sorted| ensures sorted[i].key != sorted[j].key {
        LessIsTotal(sorted[i].key, sorted[j].key);
        LessIsTotal(sorted[i].key, sorted[i].key);
      }
    case _ =>
  }

  ghost predicate SameContents(cs: seq<Member>, ds: seq<Member>) {
    forall c :: c in cs <==> c in ds
  }

  ghost predicate Agree(cs: seq<Member>, ds: seq<Member>) {
    forall i, j | 0 <= i < |cs| && 0 <= j < |ds| && cs[i].key == ds[j].key :: cs[i] == ds[j]
  }

  lemma AgreeingContain(cs: seq<Member>, ds: seq<Member>)
    requires SameKeys(cs, ds) && Agree(cs, ds)
    ensures forall c | c in cs :: c in ds
  {
    forall c | c in cs ensures c in ds {
      var i :| 0 <= i < |cs| && cs[i] == c;
      assert HasKey(cs, c.key);
      var j :| 0 <= j < |ds| && ds[j].key == c.key;
      assert cs[i] == ds[j];
    }
  }

  lemma ContainedKeys(cs: seq<Member>, ds: seq<Member>, key: Text)
    requires SameContents(cs, ds) && HasKey(cs, key)
    ensures HasKey(ds, key)
  {
    var i :| 0 <= i < |cs| && cs[i].key == key;
    assert cs[i] in cs;
    var j :| 0 <= j < |ds| && ds[j] == cs[i];
  }

  /** For distinct keys: the same members exactly when the same keys carry the same values. */
  lemma SameContentsIff(cs: seq<Member>, ds: seq<Member>)
    requires DistinctKeys(cs) && DistinctKeys(ds)
    ensures SameContents(cs, ds) <==> SameKeys(cs, ds) && Agree(cs, ds)
  {
    if SameKeys(cs, ds) && Agree(cs, ds) {
      AgreeingContain(cs, ds);
      assert Agree(ds, cs);
      AgreeingContain(ds, cs);
    }
    if SameContents(cs, ds) {
      forall key ensures HasKey(cs, key) <==> HasKey(ds, key) {
        if HasKey(cs, key) { ContainedKeys(cs, ds, key); }
        if HasKey(ds, key) { ContainedKeys(ds, cs, key); }
      }
      forall i, j | 0 <= i < |cs| && 0 <= j < |ds| && cs[i].key == ds[j].key ensures cs[i] == ds[j] {
        assert cs[i] in cs;
        var k :| 0 <= k < |ds| && ds[k] == cs[i];
        assert k == j;
      }
    }
  }

  /** Sorting depends on the members alone. */
  lemma SameSortedIff(cs: seq<Member>, ds: seq<Member>)
    requires DistinctKeys(cs) && DistinctKeys(ds)
    ensures SortMembers(cs) == SortMembers(ds) <==> SameContents(cs, ds)
  {
    SortSorts(cs);
    SortSorts(ds);
    if SameContents(cs, ds) {
      SortedIsUnique(SortMembers(cs), SortMembers(ds));
    }
  }

  lemma KeysStay(ms: seq<Member>, key: Text)
    ensures HasKey(CanonicalMembers(ms), key) <==> HasKey(ms, key)
  {
    var cs := CanonicalMembers(ms);
    if i :| 0 <= i < |ms| && ms[i].key == key {
      assert cs[i].key == key;
    }
    if i :| 0 <= i < |cs| && cs[i].key == key {
      assert ms[i].key == key;
    }
  }

  /** Equivalence is equality of canonical forms. */
  lemma {:induction false} EquivalentIffSameCanonical(v: Json, w: Json)
    requires WellFormed(v) && WellFormed(w)
    ensures Equivalent(v, w) <==> Canonical(v) == Canonical(w)
  {
    hide SortMembers, CanonicalMembers, CanonicalElements;
    match v
    case Array(es) =>
      if w.Array? && |es| == |w.elements| {
        forall i | 0 <= i < |es|
          ensures Equivalent(es[i], w.elements[i]) <==> CanonicalElements(es)[i] == CanonicalElements(w.elements)[i]
        {
          EquivalentIffSameCanonical(es[i], w.elements[i]);
        }
        ElementwiseEqual(es, w.elements);
      }
    case Object(ms) =>
      if w.Object? {
        var ns := w.members;
        var cs, ds := CanonicalMembers(ms), CanonicalMembers(ns);
        forall i, j | 0 <= i < |ms| && 0 <= j < |ns| && ms[i].key == ns[j].key
          ensures Equivalent(ms[i].value, ns[j].value) <==> cs[i] == ds[j]
        {
          EquivalentIffSameCanonical(ms[i].value, ns[j].value);
        }
        forall key ensures (HasKey(cs, key) <==> HasKey(ms, key)) && (HasKey(ds, key) <==> HasKey(ns, key)) {
          KeysStay(ms, key);
          KeysStay(ns, key);
        }
        SameContentsIff(cs, ds);
        SameSortedIff(cs, ds);
      }
    case _ =>
  }

  lemma ElementwiseEqual(es: seq<Json>, fs: seq<Json>)
    requires |es| == |fs|
    ensures CanonicalElements(es) == CanonicalElements(fs)
       <==> forall i | 0 <= i < |es| :: CanonicalElements(es)[i] == CanonicalElements(fs)[i]
  {
  }

  // ---- The main results --------------------------------------------------------------------------------------

  /** The text can be parsed back, to a value equal to the original up to key order. */
  lemma TextIsUnambiguous(v: Json)
    requires WellFormed(v)
    ensures ReadValue(StableStringify(v)) == Parsed(Canonical(v), [])
    ensures Equivalent(v, Canonical(v))
  {
    CanonicalIsWellFormed(v);
    ReadPrinted(Canonical(v), []);
    assert StableStringify(v) + [] == StableStringify(v);
    CanonicalIsIdempotent(v);
    EquivalentIffSameCanonical(v, Canonical(v));
  }

  lemma {:induction false} CanonicalIsIdempotent(v: Json)
    requires WellFormed(v)
    ensures Canonical(Canonical(v)) == Canonical(v)
  {
    match v
    case Array(es) =>
      var cs := CanonicalElements(es);
      forall i | 0 <= i < |es| ensures Canonical(cs[i]) == cs[i] { CanonicalIsIdempotent(es[i]); }
      assert CanonicalElements(cs) == cs;
    case Object(ms) =>
      var sorted := SortMembers(CanonicalMembers(ms));
      SortSorts(CanonicalMembers(ms));
      forall i | 0 <= i < |sorted|
        ensures Member(sorted[i].key, Canonical(sorted[i].value)) == sorted[i]
      {
        assert sorted[i] in sorted && sorted[i] in CanonicalMembers(ms);
        var k :| 0 <= k < |ms| && CanonicalMembers(ms)[k] == sorted[i];
        CanonicalIsIdempotent(ms[k].value);
      }
      assert CanonicalMembers(sorted) == sorted;
      SortedStays(sorted);
    case _ =>
  }

  lemma {:induction false} SortedStays(ms: seq<Member>)
    requires StrictlySorted(ms)
    ensures SortMembers(ms) == ms
  {
    if ms != [] {
      SortedStays(ms[1..]);
      assert ms == [ms[0]] + ms[1..];
      if |ms| > 1 {
        LessIsTotal(ms[0].key, ms[1].key);
      }
    }
  }

  /** Two texts are equal exactly when the values are equal up to key order. */
  lemma SameTextIffEquivalent(v: Json, w: Json)
    requires WellFormed(v) && WellFormed(w)
    ensures StableStringify(v) == StableStringify(w) <==> Equivalent(v, w)
  {
    TextIsUnambiguous(v);
    TextIsUnambiguous(w);
    EquivalentIffSameCanonical(v, w);
  }

  // ---- The recursion of the program ----------------------------------------------------------------------------

  lemma {:induction false} CanonicalOfInsert(m: Member, ms: seq<Member>)
    ensures CanonicalMembers(InsertMember(m, ms))
         == InsertMember(Member(m.key, Canonical(m.value)), CanonicalMembers(ms))
  {
    var c := Member(m.key, Canonical(m.value));
    if ms == [] || !Less(ms[0].key, m.key) {
      assert CanonicalMembers([m] + ms) == [c] + CanonicalMembers(ms);
    } else {
      CanonicalOfInsert(m, ms[1..]);
      assert CanonicalMembers(ms)[1..] == CanonicalMembers(ms[1..]);
      assert ([ms[0]] + InsertMember(m, ms[1..]))[1..] == InsertMember(m, ms[1..]);
    }
  }

  lemma {:induction false} CanonicalOfSort(ms: seq<Member>)
    ensures CanonicalMembers(SortMembers(ms)) == SortMembers(CanonicalMembers(ms))
  {
    if ms != [] {
      CanonicalOfSort(ms[1..]);
      CanonicalOfInsert(ms[0], SortMembers(ms[1..]));
      assert CanonicalMembers(ms)[1..] == CanonicalMembers(ms[1..]);
    }
  }

  /** `key:text` for each member in the order given, joined by commas. */
  function JoinMembers(ms: seq<Member>): Text {
    if ms == [] then []
    else Quote(ms[0].key) + [COLON] + StableStringify(ms[0].value)
         + (if |ms| == 1 then [] else [COMMA] + JoinMembers(ms[1..]))
  }

  function JoinElements(es: seq<Json>): Text {
    if es == [] then []
    else StableStringify(es[0]) + (if |es| == 1 then [] else [COMMA] + JoinElements(es[1..]))
  }

  lemma {:induction false} JoinIsPrint(ms: seq<Member>)
    ensures JoinMembers(ms) == PrintMembers(CanonicalMembers(ms))
  {
    if ms != [] {
      JoinIsPrint(ms[1..]);
      assert CanonicalMembers(ms)[1..] == CanonicalMembers(ms[1..]);
    }
  }

  lemma {:induction false} JoinElementsIsPrint(es: seq<Json>)
    ensures JoinElements(es) == PrintElements(CanonicalElements(es))
  {
    if es != [] {
      JoinElementsIsPrint(es[1..]);
      assert CanonicalElements(es)[1..] == CanonicalElements(es[1..]);
    }
  }

  /** The order of strings by code unit: a proper prefix comes first, else the first difference decides. */
  ghost predicate Precedes(a: Text, b: Text) {
    exists k: nat :: DiffersAt(a, b, k)
  }

  /** Both begin with the same k code units; then a ends, and b does not, or a has the smaller one. */
  ghost predicate DiffersAt(a: Text, b: Text, k: nat) {
    && k <= |a| && k < |b| && (forall i | 0 <= i < k :: a[i] == b[i])
    && (k < |a| ==> a[k] < b[k])
  }

  lemma {:induction false} LessPrecedes(a: Text, b: Text)
    ensures Less(a, b) ==> Precedes(a, b)
  {
    if Less(a, b) {
      if a == [] || a[0] < b[0] {
        assert DiffersAt(a, b, 0);
      } else {
        LessPrecedes(a[1..], b[1..]);
        var k: nat :| DiffersAt(a[1..], b[1..], k);
        forall i | 0 <= i < k + 1 ensures a[i] == b[i] {
          assert i > 0 ==> a[i] == a[1..][i - 1] && b[i] == b[1..][i - 1];
        }
        assert DiffersAt(a, b, k + 1);
      }
    }
  }

  /** The members of a value, in the order their keys are printed. */
  ghost predicate PrintOrder(ms: seq<Member>, members: seq<Member>) {
    && multiset(ms) == multiset(members)
    && forall i, j | 0 <= i < j < |ms| :: Precedes(ms[i].key, ms[j].key)
  }

  lemma {:induction false} SortKeeps(ms: seq<Member>)
    ensures multiset(SortMembers(ms)) == multiset(ms)
  {
    if ms != [] {
      SortKeeps(ms[1..]);
      InsertAdds(ms[0], SortMembers(ms[1..]));
      assert ms == [ms[0]] + ms[1..];
    }
  }

  lemma {:induction false} InsertAdds(m: Member, ms: seq<Member>)
    ensures multiset(InsertMember(m, ms)) == multiset([m]) + multiset(ms)
  {
    if ms != [] && Less(ms[0].key, m.key) {
      InsertAdds(m, ms[1..]);
      assert ms == [ms[0]] + ms[1..];
    }
  }

  lemma SortIsPrintOrder(members: seq<Member>)
    requires DistinctKeys(members)
    ensures PrintOrder(SortMembers(members), members)
  {
    SortKeeps(members);
    SortSorts(members);
    var ms := SortMembers(members);
    forall i, j | 0 <= i < j < |ms| ensures Precedes(ms[i].key, ms[j].key) {
      LessPrecedes(ms[i].key, ms[j].key);
    }
  }

  /** stableStringify is the recursion the program writes: elements in order; the members of an object, of which no two
      have the same key, by key. */
  lemma StringifyRecursion(v: Json)
    ensures v.Array? ==>
              StableStringify(v) == [OPEN_BRACKET] + JoinElements(v.elements) + [CLOSE_BRACKET]
    ensures v.Object? ==>
              StableStringify(v) == [OPEN_BRACE] + JoinMembers(SortMembers(v.members)) + [CLOSE_BRACE]
    ensures v.Object? && DistinctKeys(v.members) ==>
              exists ms :: PrintOrder(ms, v.members)
                           && StableStringify(v) == [OPEN_BRACE] + JoinMembers(ms) + [CLOSE_BRACE]
  {
    if v.Array? {
      JoinElementsIsPrint(v.elements);
    }
    if v.Object? {
      CanonicalOfSort(v.members);
      JoinIsPrint(SortMembers(v.members));
      if DistinctKeys(v.members) {
        SortIsPrintOrder(v.members);
      }
    }
  }
}
