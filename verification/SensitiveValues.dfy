/**
 Redacting a whole value (`redact_sensitive_value`).  Containers are objects with an identity
 and may be shared or cyclic, so the value is a heap of containers; the output is a tree.
 */
module SensitiveValues {
  import opened Sorting
  import opened SensitiveKeys

  // ---------- Output keys of one mapping ----------

  /** A key of a mapping with what redaction made of it. */
  datatype Entry = Entry(key: Key, candidate: Key)

  /** Keys of a mapping are distinct, and redaction only ever changes a text into a text. */
  predicate IsMapping(entries: seq<Entry>) {
    && (forall i, j :: 0 <= i < j < |entries| ==> entries[i].key != entries[j].key)
    && (forall i :: 0 <= i < |entries| ==>
        if entries[i].key.TextKey? then entries[i].candidate.TextKey? else entries[i].candidate == entries[i].key)
  }

  predicate Candidate(entries: seq<Entry>, i: nat, c: Key) {
    i < |entries| && entries[i].candidate == c
  }

  predicate Shared(entries: seq<Entry>, i: nat) {
    i < |entries| && exists j: nat :: j < |entries| && j != i && Candidate(entries, j, entries[i].candidate)
  }

  /** A changed key whose candidate is not its alone. */
  predicate Clashing(entries: seq<Entry>, i: nat) {
    i < |entries| && entries[i].key != entries[i].candidate && Shared(entries, i)
  }

  function Candidates(entries: seq<Entry>): set<Key> {
    set i | 0 <= i < |entries| :: entries[i].candidate
  }

  predicate ClashBefore(a: Clash, b: Clash) {
    if a.candidate != b.candidate then LexLess(Codes(a.candidate), Codes(b.candidate))
      else LexLess(Codes(a.key), Codes(b.key))
  }

  lemma ClashBeforeIsStrictTotal()
    ensures StrictTotal(ClashBefore)
  {
    forall x, y, z ensures Ordered(ClashBefore, x, y, z) {
      LexTrichotomy(Codes(x.candidate), Codes(y.candidate));
      LexTrichotomy(Codes(x.key), Codes(y.key));
      LexAsymmetric(Codes(x.candidate), Codes(y.candidate));
      if Codes(x.candidate) == Codes(y.candidate) { CodesInjective(x.candidate, y.candidate); }
      if Codes(x.key) == Codes(y.key) { CodesInjective(x.key, y.key); }
      if LexLess(Codes(x.candidate), Codes(y.candidate)) && LexLess(Codes(y.candidate), Codes(z.candidate)) {
        LexTransitive(Codes(x.candidate), Codes(y.candidate), Codes(z.candidate));
      }
      if LexLess(Codes(x.key), Codes(y.key)) && LexLess(Codes(y.key), Codes(z.key)) {
        LexTransitive(Codes(x.key), Codes(y.key), Codes(z.key));
      }
    }
  }

  function ClashAt(e: Entry): Clash
    requires e.key.TextKey? && e.candidate.TextKey?
  {
    Clash(e.candidate.text, e.key.text)
  }

  /** The clashes, by candidate and then by key. */
  function Clashes(entries: seq<Entry>): (r: seq<Clash>)
    requires IsMapping(entries)
    ensures forall c :: c in r <==> exists i :: 0 <= i < |entries| && Clashing(entries, i) && ClashAt(entries[i]) == c
    ensures Sorted(ClashBefore, r)
  {
    ClashBeforeIsStrictTotal();
    SortSet(ClashBefore, set i | 0 <= i < |entries| && Clashing(entries, i) :: ClashAt(entries[i]))
  }

  lemma ClashKeysDistinct(entries: seq<Entry>)
    requires IsMapping(entries)
    ensures SensitiveKeys.DistinctKeys(Clashes(entries))
  {
    hide ClashBefore, Shared, Clashes;
    var cs := Clashes(entries);
    forall a, b | 0 <= a < b < |cs| ensures cs[a].key != cs[b].key {
      SortedApart(cs, a, b);
      assert cs[a] in cs && cs[b] in cs;
      var i :| 0 <= i < |entries| && Clashing(entries, i) && ClashAt(entries[i]) == cs[a];
      var j :| 0 <= j < |entries| && Clashing(entries, j) && ClashAt(entries[j]) == cs[b];
      assert entries[i].key != entries[j].key;
    }
  }

  lemma SortedApart(cs: seq<Clash>, a: nat, b: nat)
    requires Sorted(ClashBefore, cs) && a < b < |cs|
    ensures cs[a] != cs[b]
  {
    ClashBeforeIsStrictTotal();
    hide ClashBefore;
    assert Ordered(ClashBefore, cs[a], cs[a], cs[a]);
    assert ClashBefore(cs[a], cs[b]);
  }

  /** What an entry is stored under. */
  function OutputKey(entries: seq<Entry>, i: nat): Key
    requires IsMapping(entries) && i < |entries|
  {
    var renamed := Allocation(Clashes(entries), Candidates(entries));
    if entries[i].key.TextKey? && entries[i].key.text in renamed then TextKey(renamed[entries[i].key.text])
      else entries[i].candidate
  }

  /** No two entries of a mapping are stored under one key, so none is lost. */
  lemma OutputKeysAreDistinct(entries: seq<Entry>, i: nat, j: nat)
    requires IsMapping(entries) && i < j < |entries|
    ensures OutputKey(entries, i) != OutputKey(entries, j)
  {
    ClashKeysDistinct(entries);
    AllocationIsFresh(Clashes(entries), Candidates(entries));
    RenamedExactly(entries, i);
    RenamedExactly(entries, j);
    var a, b := entries[i], entries[j];
    assert a.candidate in Candidates(entries) && b.candidate in Candidates(entries);
    assert a.candidate == b.candidate ==> Candidate(entries, i, b.candidate) && Candidate(entries, j, a.candidate);
  }

  /** The renamed keys are exactly the clashing ones. */
  lemma RenamedExactly(entries: seq<Entry>, i: nat)
    requires IsMapping(entries) && i < |entries|
    ensures var renamed := Allocation(Clashes(entries), Candidates(entries));
      (entries[i].key.TextKey? && entries[i].key.text in renamed) <==> Clashing(entries, i)
  {
    var cs := Clashes(entries);
    var renamed := Allocation(cs, Candidates(entries));
    if Clashing(entries, i) {
      assert ClashAt(entries[i]) in cs;
    }
    if entries[i].key.TextKey? && entries[i].key.text in renamed {
      var k :| 0 <= k < |cs| && cs[k].key == entries[i].key.text;
      assert cs[k] in cs;
      var j :| 0 <= j < |entries| && Clashing(entries, j) && ClashAt(entries[j]) == cs[k];
      assert entries[j].key == entries[i].key;
    }
  }

  /**
   What a reader of the output sees: an unchanged or unshared key keeps its candidate, a clashing
   one is its candidate with a number.
   */
  lemma OutputKeyMeaning(entries: seq<Entry>, i: nat)
    requires IsMapping(entries) && i < |entries|
    ensures !Clashing(entries, i) ==> OutputKey(entries, i) == entries[i].candidate
    ensures Clashing(entries, i) ==>
      exists n: nat :: n >= 1 && OutputKey(entries, i) == TextKey(entries[i].candidate.text + "#" + Numeral(n))
    ensures Clashing(entries, i) ==> OutputKey(entries, i) !in Candidates(entries)
  {
    ClashKeysDistinct(entries);
    AllocationIsFresh(Clashes(entries), Candidates(entries));
    RenamedExactly(entries, i);
    if Clashing(entries, i) {
      var c := ClashAt(entries[i]);
      assert c in Clashes(entries);
    }
  }

  /** The key is some entry's own candidate, or was given to a clashing entry before this one. */
  ghost predicate TakenBefore(entries: seq<Entry>, i: nat, key: Key)
    requires IsMapping(entries) && i < |entries|
  {
    key in Candidates(entries) || exists j: nat :: GivenBefore(entries, i, j, key)
  }

  /** In the order of candidates and then of keys, entry `j` goes before entry `i` and has this key. */
  ghost predicate GivenBefore(entries: seq<Entry>, i: nat, j: nat, key: Key)
    requires IsMapping(entries) && i < |entries|
  {
    && j < |entries| && Clashing(entries, j) && Clashing(entries, i) && OutputKey(entries, j) == key
    && var a, b := entries[j], entries[i];
      || LexLess(Codes(a.candidate.text), Codes(b.candidate.text))
      || (a.candidate.text == b.candidate.text && LexLess(Codes(a.key.text), Codes(b.key.text)))
  }

  ghost predicate HasLeastNumber(entries: seq<Entry>, i: nat, n: nat)
    requires IsMapping(entries) && i < |entries| && entries[i].candidate.TextKey?
  {
    && n >= 1 && OutputKey(entries, i) == TextKey(entries[i].candidate.text + "#" + Numeral(n))
    && forall m :: 1 <= m < n ==> TakenBefore(entries, i, TextKey(entries[i].candidate.text + "#" + Numeral(m)))
  }

  /** The number of a clashing entry is the least that is not taken before it. */
  lemma OutputNumberIsLeast(entries: seq<Entry>, i: nat)
    requires IsMapping(entries) && i < |entries| && Clashing(entries, i)
    ensures entries[i].candidate.TextKey? && exists n: nat :: HasLeastNumber(entries, i, n)
  {
    hide Shared, Clashes, Allocation, Numeral, Candidates;
    ClashKeysDistinct(entries);
    var cs, reserved := Clashes(entries), Candidates(entries);
    var a := Allocation(cs, reserved);
    RenamedExactly(entries, i);
    var c := ClashAt(entries[i]);
    assert c in cs;
    var k :| 0 <= k < |cs| && cs[k] == c;
    AllocationIsLeast(cs, reserved, k);
    var n: nat :| LeastNumber(cs, reserved, a, k, n);
    forall m | 1 <= m < n ensures TakenBefore(entries, i, TextKey(c.candidate + "#" + Numeral(m))) {
      var key := c.candidate + "#" + Numeral(m);
      assert Taken(cs, reserved, a, k, key);
      if TextKey(key) !in reserved {
        var l :| 0 <= l < k && cs[l].key in a && a[cs[l].key] == key;
        GivenToEarlier(entries, i, k, l, key);
      }
    }
    assert HasLeastNumber(entries, i, n);
  }

  lemma GivenToEarlier(entries: seq<Entry>, i: nat, k: nat, l: nat, key: string)
    requires IsMapping(entries) && i < |entries| && Clashing(entries, i)
    requires var cs := Clashes(entries);
      && l < k < |cs| && cs[k] == ClashAt(entries[i])
      && cs[l].key in Allocation(cs, Candidates(entries)) && Allocation(cs, Candidates(entries))[cs[l].key] == key
    ensures exists j: nat :: GivenBefore(entries, i, j, TextKey(key))
  {
    hide Shared, Clashes, Allocation, Candidates, LexLess;
    var cs := Clashes(entries);
    assert cs[l] in cs;
    var j :| 0 <= j < |entries| && Clashing(entries, j) && ClashAt(entries[j]) == cs[l];
    assert ClashBefore(cs[l], cs[k]);
    assert GivenBefore(entries, i, j, TextKey(key));
  }

  /** The renaming step of the source: count the candidates, then rename the clashes in order. */
  method RenameKeys(entries: seq<Entry>) returns (keys: seq<Key>)
    requires IsMapping(entries)
    ensures |keys| == |entries| && forall i :: 0 <= i < |entries| ==> keys[i] == OutputKey(entries, i)
  {
    var counts := CountCandidates(entries);
    var clashing := CollectClashes(entries, counts);
    ClashBeforeIsStrictTotal();
    ClashKeysDistinct(entries);
    CountedKeys(counts, entries);
    var renamed := AllocateKeys(SortSet(ClashBefore, clashing), counts.Keys);
    assert renamed == Allocation(Clashes(entries), Candidates(entries));
    hide Clashes, Candidates, Allocation, IsMapping;
    keys := [];
    for i := 0 to |entries|
      invariant |keys| == i && forall j :: 0 <= j < i ==> keys[j] == OutputKey(entries, j)
    {
      var e := entries[i];
      keys := keys + [if e.key.TextKey? && e.key.text in renamed then TextKey(renamed[e.key.text]) else e.candidate];
    }
  }

  method CountCandidates(entries: seq<Entry>) returns (counts: map<Key, nat>)
    ensures CountsOk(counts, entries, |entries|)
  {
    counts := map[];
    for i := 0 to |entries|
      invariant CountsOk(counts, entries, i)
    {
      var c := entries[i].candidate;
      CountOneMore(counts, entries, i);
      counts := counts[c := (if c in counts then counts[c] else 0) + 1];
    }
  }

  method CollectClashes(entries: seq<Entry>, counts: map<Key, nat>) returns (clashing: set<Clash>)
    requires IsMapping(entries) && CountsOk(counts, entries, |entries|)
    ensures clashing == set i | 0 <= i < |entries| && Clashing(entries, i) :: ClashAt(entries[i])
  {
    clashing := {};
    for i := 0 to |entries|
      invariant clashing == set j | 0 <= j < i && Clashing(entries, j) :: ClashAt(entries[j])
    {
      CountMeansShared(counts, entries, i);
      hide CountsOk, Shared;
      if entries[i].key != entries[i].candidate && counts[entries[i].candidate] != 1 {
        clashing := clashing + {ClashAt(entries[i])};
      }
    }
  }

  lemma CountedKeys(counts: map<Key, nat>, entries: seq<Entry>)
    requires CountsOk(counts, entries, |entries|)
    ensures counts.Keys == Candidates(entries)
  {
    forall c ensures c in counts <==> c in Candidates(entries) {
      if c in Candidates(entries) {
        var j :| 0 <= j < |entries| && entries[j].candidate == c;
        assert Candidate(entries, j, c);
      }
    }
  }

  function Occurrences(entries: seq<Entry>, n: nat, c: Key): nat
    requires n <= |entries|
  {
    if n == 0 then 0 else Occurrences(entries, n - 1, c) + (if entries[n - 1].candidate == c then 1 else 0)
  }

  ghost predicate CountsOk(counts: map<Key, nat>, entries: seq<Entry>, n: nat) {
    && n <= |entries|
    && (forall c :: c in counts <==> exists j: nat :: j < n && Candidate(entries, j, c))
    && (forall c :: c in counts ==> counts[c] == Occurrences(entries, n, c))
  }

  lemma {:induction false} OccurrencesMeaning(entries: seq<Entry>, n: nat, c: Key)
    requires n <= |entries|
    ensures Occurrences(entries, n, c) >= 1 <==> exists j: nat :: j < n && Candidate(entries, j, c)
    ensures Occurrences(entries, n, c) >= 2 <==>
      exists i: nat, j: nat :: i < j < n && Candidate(entries, i, c) && Candidate(entries, j, c)
  {
    if n > 0 {
      OccurrencesMeaning(entries, n - 1, c);
      if entries[n - 1].candidate == c {
        assert Candidate(entries, n - 1, c);
      } else {
        assert !Candidate(entries, n - 1, c);
      }
      if Occurrences(entries, n, c) >= 2 && entries[n - 1].candidate == c {
        var i: nat :| i < n - 1 && Candidate(entries, i, c);
        assert i < n - 1 < n && Candidate(entries, n - 1, c);
      }
    }
  }

  lemma CountOneMore(counts: map<Key, nat>, entries: seq<Entry>, i: nat)
    requires i < |entries| && CountsOk(counts, entries, i)
    ensures var c := entries[i].candidate;
      CountsOk(counts[c := (if c in counts then counts[c] else 0) + 1], entries, i + 1)
  {
    var c := entries[i].candidate;
    OccurrencesMeaning(entries, i, c);
    assert Candidate(entries, i, c);
    var after := counts[c := (if c in counts then counts[c] else 0) + 1];
    forall d ensures d in after <==> exists j: nat :: j < i + 1 && Candidate(entries, j, d) {
    }
  }

  lemma CountMeansShared(counts: map<Key, nat>, entries: seq<Entry>, i: nat)
    requires i < |entries| && CountsOk(counts, entries, |entries|)
    ensures entries[i].candidate in counts
    ensures counts[entries[i].candidate] != 1 <==> Shared(entries, i)
  {
    var c := entries[i].candidate;
    assert Candidate(entries, i, c);
    OccurrencesMeaning(entries, |entries|, c);
    if Shared(entries, i) {
      var j: nat :| j < |entries| && j != i && Candidate(entries, j, c);
      assert (i < j || j < i) && Candidate(entries, j, c);
    }
    if counts[c] >= 2 {
      var a: nat, b: nat :| a < b < |entries| && Candidate(entries, a, c) && Candidate(entries, b, c);
      assert a != i || b != i;
    }
  }
}
