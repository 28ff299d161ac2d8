/**
 Renaming the keys of a redacted mapping (`redact_sensitive_value`): keys that became equal get
 a numbered suffix.  `Allocation` searches every suffix from one; `AllocateKeys` is the source's
 loop, which remembers where the last search for a candidate ended.
 */
module SensitiveKeys {
  import opened Graphs
  import opened Sorting
  import opened CanonicalJson
  import opened CanonicalRoundTrip

  /** A mapping key: a text, or any other hashable value, with its rendering by `str`. */
  datatype Key = TextKey(text: string) | OtherKey(identity: int, rendering: string)

  /** A key that was changed by redaction into a candidate it shares with another key. */
  datatype Clash = Clash(candidate: string, key: string)

  function Numeral(n: nat): (r: string)
    ensures Codes(r) == Digits(n)
  {
    var digits := Digits(n);
    DigitsAreDigits(n);
    assert forall i :: 0 <= i < |digits| ==> IsDigit(digits[i]);
    var r := seq(|digits|, i requires 0 <= i < |digits| => digits[i] as char);
    assert Codes(r) == digits;
    r
  }

  function Suffixed(candidate: string, n: nat): string {
    candidate + "#" + Numeral(n)
  }

  lemma SuffixesDiffer(candidate: string, m: nat, n: nat)
    requires Suffixed(candidate, m) == Suffixed(candidate, n)
    ensures m == n
  {
    assert Suffixed(candidate, m)[|candidate| + 1..] == Numeral(m);
    assert Suffixed(candidate, n)[|candidate| + 1..] == Numeral(n);
    DigitsAreDigits(m);
    DigitsAreDigits(n);
  }

  // ---------- The search for a free suffix ----------

  /** The reserved keys that are a numbered form of the candidate, from `n` on. */
  ghost function TakenFrom(candidate: string, n: nat, reserved: set<Key>): set<Key> {
    set k | k in reserved && exists m :: m >= n && k == TextKey(Suffixed(candidate, m))
  }

  lemma TakenShrinks(candidate: string, n: nat, reserved: set<Key>)
    requires TextKey(Suffixed(candidate, n)) in reserved
    ensures TakenFrom(candidate, n + 1, reserved) < TakenFrom(candidate, n, reserved)
    ensures |TakenFrom(candidate, n + 1, reserved)| < |TakenFrom(candidate, n, reserved)|
  {
    var k := TextKey(Suffixed(candidate, n));
    assert k in TakenFrom(candidate, n, reserved);
    forall m | m >= n + 1 ensures k != TextKey(Suffixed(candidate, m)) {
      if Suffixed(candidate, m) == Suffixed(candidate, n) { SuffixesDiffer(candidate, m, n); }
    }
    assert k !in TakenFrom(candidate, n + 1, reserved);
    SubsetSize(TakenFrom(candidate, n + 1, reserved), TakenFrom(candidate, n, reserved));
  }

  /** The first free suffix from `n` on: the search ends because only finitely many keys are reserved. */
  function FirstFree(candidate: string, n: nat, reserved: set<Key>): (r: nat)
    ensures n <= r && TextKey(Suffixed(candidate, r)) !in reserved
    ensures forall m :: n <= m < r ==> TextKey(Suffixed(candidate, m)) in reserved
    decreases |TakenFrom(candidate, n, reserved)|
  {
    if TextKey(Suffixed(candidate, n)) !in reserved then n
    else
      TakenShrinks(candidate, n, reserved);
      FirstFree(candidate, n + 1, reserved)
  }

  /** Starting the search later makes no difference when everything before is taken. */
  lemma {:induction false} SearchMaySkip(candidate: string, from: nat, n: nat, reserved: set<Key>)
    requires from <= n && forall m :: from <= m < n ==> TextKey(Suffixed(candidate, m)) in reserved
    ensures FirstFree(candidate, from, reserved) == FirstFree(candidate, n, reserved)
    decreases n - from
  {
    if from == n {
    } else {
      SearchMaySkip(candidate, from + 1, n, reserved);
    }
  }

  // ---------- Giving every clash its key ----------

  /** Each clash in turn takes the first free number of its candidate. */
  function Allocation(clashes: seq<Clash>, reserved: set<Key>): (r: map<string, string>)
    ensures r.Keys == set i | 0 <= i < |clashes| :: clashes[i].key
  {
    if clashes == [] then map[]
    else
      var before := Allocation(clashes[..|clashes| - 1], reserved);
      var last := clashes[|clashes| - 1];
      assert clashes == clashes[..|clashes| - 1] + [last];
      before[last.key := Suffixed(last.candidate, FirstFree(last.candidate, 1, Reserved(before, reserved)))]
  }

  /** What is reserved once some keys were given out. */
  function Reserved(renamed: map<string, string>, reserved: set<Key>): set<Key> {
    reserved + set k | k in renamed :: TextKey(renamed[k])
  }

  ghost predicate DistinctKeys(clashes: seq<Clash>) {
    forall i, j :: 0 <= i < j < |clashes| ==> clashes[i].key != clashes[j].key
  }

  /** The keys given out are numbered forms of their candidates, new, and pairwise distinct. */
  lemma {:induction false} AllocationIsFresh(clashes: seq<Clash>, reserved: set<Key>)
    requires DistinctKeys(clashes)
    ensures var a := Allocation(clashes, reserved);
      && (forall k :: k in a ==> TextKey(a[k]) !in reserved)
      && (forall k, l :: k in a && l in a && a[k] == a[l] ==> k == l)
      && (forall c :: c in clashes ==> exists n :: n >= 1 && a[c.key] == Suffixed(c.candidate, n))
  {
    if clashes != [] {
      var rest, last := clashes[..|clashes| - 1], clashes[|clashes| - 1];
      AllocationIsFresh(rest, reserved);
      var before, a := Allocation(rest, reserved), Allocation(clashes, reserved);
      var n := FirstFree(last.candidate, 1, Reserved(before, reserved));
      var given := Suffixed(last.candidate, n);
      assert a == before[last.key := given];
      assert last.key !in before;
      hide Suffixed, FirstFree, Allocation, Reserved;
      ReservedHolds(before, reserved, given);
      NewKeyStaysApart(before, reserved, last.key, given);
      forall c | c in clashes ensures exists n :: n >= 1 && a[c.key] == Suffixed(c.candidate, n) {
        if c in rest {
          assert a[c.key] == before[c.key];
        } else {
          assert c == last;
        }
      }
    }
  }

  /** Each clash takes the least number that is neither reserved nor taken by a clash before it. */
  ghost predicate LeastNumber(clashes: seq<Clash>, reserved: set<Key>, a: map<string, string>, i: nat, n: nat)
    requires i < |clashes|
  {
    && n >= 1 && clashes[i].key in a && a[clashes[i].key] == clashes[i].candidate + "#" + Numeral(n)
    && forall m :: 1 <= m < n ==> Taken(clashes, reserved, a, i, clashes[i].candidate + "#" + Numeral(m))
  }

  /** The key is reserved, or was given to a clash before the `i`-th. */
  ghost predicate Taken(clashes: seq<Clash>, reserved: set<Key>, a: map<string, string>, i: nat, key: string)
    requires i <= |clashes|
  {
    TextKey(key) in reserved
    || exists j :: 0 <= j < i && clashes[j].key in a && a[clashes[j].key] == key
  }

  lemma {:induction false} AllocationIsLeast(clashes: seq<Clash>, reserved: set<Key>, i: nat)
    requires DistinctKeys(clashes) && i < |clashes|
    ensures exists n: nat :: LeastNumber(clashes, reserved, Allocation(clashes, reserved), i, n)
  {
    hide LeastNumber, Allocation;
    var last := |clashes| - 1;
    if i < last {
      AllocationIsLeast(clashes[..last], reserved, i);
      var n: nat :| LeastNumber(clashes[..last], reserved, Allocation(clashes[..last], reserved), i, n);
      LeastStays(clashes, reserved, i, n);
    } else {
      LastIsLeast(clashes, reserved, last);
    }
  }

  lemma LeastStays(clashes: seq<Clash>, reserved: set<Key>, i: nat, n: nat)
    requires DistinctKeys(clashes) && i < |clashes| - 1
    requires var rest := clashes[..|clashes| - 1]; LeastNumber(rest, reserved, Allocation(rest, reserved), i, n)
    ensures LeastNumber(clashes, reserved, Allocation(clashes, reserved), i, n)
  {
    hide Allocation, Numeral, FirstFree, Reserved;
    EarlierKeysStay(clashes, reserved);
    var rest := clashes[..|clashes| - 1];
    var before, a := Allocation(rest, reserved), Allocation(clashes, reserved);
    assert forall key :: Taken(rest, reserved, before, i, key) ==> Taken(clashes, reserved, a, i, key);
    hide Taken;
  }

  lemma LastIsLeast(clashes: seq<Clash>, reserved: set<Key>, last: nat)
    requires DistinctKeys(clashes) && last + 1 == |clashes|
    ensures exists n: nat :: LeastNumber(clashes, reserved, Allocation(clashes, reserved), last, n)
  {
    var c, rest := clashes[last], clashes[..last];
    var before, a := Allocation(rest, reserved), Allocation(clashes, reserved);
    var n := FirstFree(c.candidate, 1, Reserved(before, reserved));
    EarlierKeysStay(clashes, reserved);
    hide Allocation, FirstFree, Numeral;
    forall m | 1 <= m < n ensures Taken(clashes, reserved, a, last, c.candidate + "#" + Numeral(m)) {
      var key := Suffixed(c.candidate, m);
      if TextKey(key) !in reserved {
        var k :| k in before && before[k] == key;
        var j :| 0 <= j < last && rest[j].key == k;
        assert clashes[j].key in a && a[clashes[j].key] == key;
      }
    }
    hide Taken;
    assert LeastNumber(clashes, reserved, a, last, n);
  }

  /** A further clash takes nothing from those before it. */
  lemma EarlierKeysStay(clashes: seq<Clash>, reserved: set<Key>)
    requires DistinctKeys(clashes) && clashes != []
    ensures var last := |clashes| - 1;
      var before, a := Allocation(clashes[..last], reserved), Allocation(clashes, reserved);
      && (forall j :: 0 <= j < last ==>
            clashes[j].key in before && clashes[j].key in a && a[clashes[j].key] == before[clashes[j].key])
      && clashes[last].key in a
      && a[clashes[last].key] ==
        Suffixed(clashes[last].candidate, FirstFree(clashes[last].candidate, 1, Reserved(before, reserved)))
  {
    hide Suffixed, FirstFree, Reserved;
    var last := |clashes| - 1;
    var before := Allocation(clashes[..last], reserved);
    forall j | 0 <= j < last ensures clashes[j].key in before && clashes[j].key != clashes[last].key {
      assert clashes[..last][j] == clashes[j];
    }
  }

  lemma ReservedHolds(renamed: map<string, string>, reserved: set<Key>, output: string)
    requires TextKey(output) !in Reserved(renamed, reserved)
    ensures TextKey(output) !in reserved && forall k :: k in renamed ==> renamed[k] != output
  {
  }

  lemma NewKeyStaysApart(renamed: map<string, string>, reserved: set<Key>, key: string, output: string)
    requires key !in renamed && TextKey(output) !in reserved
    requires forall k :: k in renamed ==> renamed[k] != output && TextKey(renamed[k]) !in reserved
    requires forall k, l :: k in renamed && l in renamed && renamed[k] == renamed[l] ==> k == l
    ensures var a := renamed[key := output];
      (forall k :: k in a ==> TextKey(a[k]) !in reserved)
        && (forall k, l :: k in a && l in a && a[k] == a[l] ==> k == l)
  {
  }

  /** Where the search for a candidate may resume: everything below is taken. */
  predicate ResumeOk(next: map<string, nat>, reserved: set<Key>) {
    forall c :: c in next ==> next[c] >= 1 && forall m :: 1 <= m < next[c] ==> TextKey(Suffixed(c, m)) in reserved
  }

  lemma ResumeAfter(next: map<string, nat>, reserved: set<Key>, c: Clash, start: nat, suffix: nat)
    requires ResumeOk(next, reserved) && start == (if c.candidate in next then next[c.candidate] else 1)
    requires suffix == FirstFree(c.candidate, start, reserved)
    ensures ResumeOk(next[c.candidate := suffix + 1], reserved + {TextKey(Suffixed(c.candidate, suffix))})
    ensures suffix == FirstFree(c.candidate, 1, reserved)
  {
    SearchMaySkip(c.candidate, 1, start, reserved);
    hide Suffixed, FirstFree;
  }

  /** One more clash: the sequence of renamings grows by its key. */
  lemma OneMore(clashes: seq<Clash>, i: nat, taken: set<Key>, renamed: map<string, string>)
    requires i < |clashes| && DistinctKeys(clashes) && renamed == Allocation(clashes[..i], taken)
    ensures clashes[i].key !in renamed
    ensures var c := clashes[i];
      Allocation(clashes[..i + 1], taken) ==
        renamed[c.key := Suffixed(c.candidate, FirstFree(c.candidate, 1, Reserved(renamed, taken)))]
  {
    hide Suffixed, FirstFree;
    assert clashes[..i + 1][..i] == clashes[..i];
  }

  lemma OneMoreReserved(renamed: map<string, string>, key: string, output: string, taken: set<Key>)
    requires key !in renamed
    ensures Reserved(renamed[key := output], taken) == Reserved(renamed, taken) + {TextKey(output)}
  {
    var after := renamed[key := output];
    assert key in after && after[key] == output;
    assert forall k :: k in renamed ==> k in after && after[k] == renamed[k];
  }

  method SearchSuffix(candidate: string, start: nat, reserved: set<Key>) returns (suffix: nat)
    ensures suffix == FirstFree(candidate, start, reserved)
  {
    suffix := start;
    while TextKey(Suffixed(candidate, suffix)) in reserved
      invariant start <= suffix
      invariant FirstFree(candidate, start, reserved) == FirstFree(candidate, suffix, reserved)
      decreases |TakenFrom(candidate, suffix, reserved)|
    {
      TakenShrinks(candidate, suffix, reserved);
      suffix := suffix + 1;
    }
  }

  /** The source's loop, with `next_suffix` remembering where each search ended. */
  method AllocateKeys(clashes: seq<Clash>, taken: set<Key>) returns (renamed: map<string, string>)
    requires DistinctKeys(clashes)
    ensures renamed == Allocation(clashes, taken)
  {
    renamed := map[];
    var reserved := taken;
    var next: map<string, nat> := map[];
    assert clashes[..0] == [] && Allocation([], taken) == map[] && Reserved(map[], taken) == taken
      && ResumeOk(next, taken);
    hide Suffixed, FirstFree, Allocation, Reserved, ResumeOk;
    for i := 0 to |clashes|
      invariant renamed == Allocation(clashes[..i], taken)
      invariant reserved == Reserved(renamed, taken)
      invariant ResumeOk(next, reserved)
    {
      var c := clashes[i];
      var start := if c.candidate in next then next[c.candidate] else 1;
      var suffix := SearchSuffix(c.candidate, start, reserved);
      ResumeAfter(next, reserved, c, start, suffix);
      var output := Suffixed(c.candidate, suffix);
      OneMore(clashes, i, taken, renamed);
      OneMoreReserved(renamed, c.key, output, taken);
      renamed := renamed[c.key := output];
      reserved := reserved + {TextKey(output)};
      next := next[c.candidate := suffix + 1];
    }
    assert clashes[..|clashes|] == clashes;
  }
}
