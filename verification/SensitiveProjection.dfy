/**
 The recursion of `redact_sensitive_value` over lists, tuples and mappings, with the set of
 containers it is currently inside.
 */
module SensitiveProjection {
  import opened Wrappers
  import opened Graphs
  import opened Redaction
  import opened SensitiveText
  import opened SensitiveKeys
  import opened SensitiveValues

  type Node = nat

  /** A string, any other value that is passed through, or a reference to a container. */
  datatype Item = Text(s: string) | Leaf(value: int) | Ref(node: Node)

  datatype Container = ListOf(items: seq<Item>) | TupleOf(items: seq<Item>) | MappingOf(keys: seq<Key>,
      items: seq<Item>)

  type Heap = map<Node, Container>

  datatype Out = OutText(s: string) | OutLeaf(value: int) | OutList(items: seq<Out>) | OutTuple(items: seq<Out>)
               | OutMapping(keys: seq<Key>, items: seq<Out>)

  predicate Resolves(heap: Heap, item: Item) {
    item.Ref? ==> item.node in heap
  }

  /** References lead to objects, and a mapping has one item for each of its distinct keys. */
  predicate WellFormedHeap(heap: Heap) {
    forall n :: n in heap ==>
      && (forall i :: 0 <= i < |heap[n].items| ==> Resolves(heap, heap[n].items[i]))
      && (heap[n].MappingOf? ==> |heap[n].keys| == |heap[n].items|
                                 && forall i, j :: 0 <= i < j < |heap[n].keys| ==> heap[n].keys[i] != heap[n].keys[j])
  }

  // ---------- The containment graph ----------

  function Refs(items: seq<Item>): (r: seq<Node>)
    ensures forall n :: n in r <==> Ref(n) in items
  {
    if items == [] then [] else (if items[0].Ref? then [items[0].node] else []) + Refs(items[1..])
  }

  function Containment(heap: Heap): Graph<Node> {
    map n | n in heap :: Refs(heap[n].items)
  }

  // ---------- The projection ----------

  /** Every key with its candidate: a text redacted as text, anything else as it is. */
  predicate AreEntries(k: Known, keys: seq<Key>, entries: seq<Entry>)
    requires NonEmptySecrets(k.patterns)
  {
    && |entries| == |keys|
    && forall i :: 0 <= i < |keys| ==>
         && entries[i].key == keys[i]
         && entries[i].candidate == if keys[i].TextKey? then TextKey(RedactedText(k, keys[i].text)) else keys[i]
  }

  function EntriesOf(k: Known, keys: seq<Key>): (r: seq<Entry>)
    requires NonEmptySecrets(k.patterns)
    ensures AreEntries(k, keys, r)
    ensures (forall i, j :: 0 <= i < j < |keys| ==> keys[i] != keys[j]) ==> IsMapping(r)
  {
    seq(|keys|, i requires 0 <= i < |keys| => Entry(keys[i], if keys[i].TextKey?
                                                    then TextKey(RedactedText(k, keys[i].text)) else keys[i]))
  }

  function OutputKeys(entries: seq<Entry>): (r: seq<Key>)
    requires IsMapping(entries)
    ensures |r| == |entries| && forall i :: 0 <= i < |entries| ==> r[i] == OutputKey(entries, i)
  {
    seq(|entries|, i requires 0 <= i < |entries| => OutputKey(entries, i))
  }

  /** `None` is the error of a cyclic container; `active` holds the containers around the item. */
  function Projected(k: Known, heap: Heap, item: Item, active: set<Node>): Option<Out>
    requires NonEmptySecrets(k.patterns) && WellFormedHeap(heap) && Resolves(heap, item)
    decreases heap.Keys - active, 0
  {
    match item
    case Text(s) => Some(OutText(RedactedText(k, s)))
    case Leaf(v) => Some(OutLeaf(v))
    case Ref(n) =>
      if n in active then None
      else
        var c := heap[n];
        var children := ProjectedAll(k, heap, c.items, active + {n});
        if children.None? then None
        else Some(match c
                  case ListOf(_) => OutList(children.value)
                  case TupleOf(_) => OutTuple(children.value)
                  case MappingOf(keys, _) => OutMapping(OutputKeys(EntriesOf(k, keys)), children.value))
  }

  function ProjectedAll(k: Known, heap: Heap, items: seq<Item>, active: set<Node>): (r: Option<seq<Out>>)
    requires NonEmptySecrets(k.patterns) && WellFormedHeap(heap) && forall i :: 0 <= i < |items| ==>
      Resolves(heap, items[i])
    ensures r.Some? ==> |r.value| == |items|
    decreases heap.Keys - active, |items|
  {
    if items == [] then Some([])
    else
      var first := Projected(k, heap, items[0], active);
      if first.None? then None
      else
        var rest := ProjectedAll(k, heap, items[1..], active);
        if rest.None? then None else Some([first.value] + rest.value)
  }

  lemma {:induction false} ProjectedEach(k: Known, heap: Heap, items: seq<Item>, active: set<Node>)
    requires NonEmptySecrets(k.patterns) && WellFormedHeap(heap) && forall i :: 0 <= i < |items| ==>
      Resolves(heap, items[i])
    ensures ProjectedAll(k, heap, items, active).Some? <==> forall i :: 0 <= i < |items| ==>
      Projected(k, heap, items[i], active).Some?
    ensures var r := ProjectedAll(k, heap, items, active);
      r.Some? ==> forall i :: 0 <= i < |items| ==> Projected(k, heap, items[i], active) == Some(r.value[i])
  {
    if items == [] {
    } else {
      ProjectedEach(k, heap, items[1..], active);
      assert forall i :: 1 <= i < |items| ==> items[i] == items[1..][i - 1];
      assert forall i :: 0 <= i < |items| - 1 ==> items[1..][i] == items[i + 1];
    }
  }

  // ---------- It fails exactly on cycles ----------

  /** From `n` the recursion meets a container it is already inside. */
  ghost predicate Blocked(g: Graph<Node>, n: Node, active: set<Node>) {
    exists x :: Reaches(g, n, x) && (x in active || ReachesPlus(g, x, x))
  }

  lemma ProjectedFails(k: Known, heap: Heap, n: Node, active: set<Node>)
    requires NonEmptySecrets(k.patterns) && WellFormedHeap(heap) && n in heap
    ensures Projected(k, heap, Ref(n), active).None? <==> Blocked(Containment(heap), n, active)
    decreases heap.Keys - active
  {
    var g := Containment(heap);
    ReachesSelf(g, n);
    if n in active {
      assert Reaches(g, n, n) && n in active;
    } else {
      var items := heap[n].items;
      ProjectedEach(k, heap, items, active + {n});
      forall i | 0 <= i < |items| && items[i].Ref?
        ensures Projected(k, heap, items[i], active + {n}).None? <==> Blocked(g, items[i].node, active + {n})
      {
        ProjectedFails(k, heap, items[i].node, active + {n});
      }
      BlockedBelow(heap, n, active);
      hide Blocked, Reaches, ReachesPlus;
      if i :| 0 <= i < |items| && Projected(k, heap, items[i], active + {n}).None? {
        assert items[i] == Ref(items[i].node) && items[i] in items;
      }
    }
  }

  /** A container not being visited is blocked exactly when one of its children is, once it is being visited. */
  lemma BlockedBelow(heap: Heap, n: Node, active: set<Node>)
    requires n in heap && n !in active
    ensures Blocked(Containment(heap), n, active) <==>
      exists i :: 0 <= i < |heap[n].items| && heap[n].items[i].Ref?
        && Blocked(Containment(heap), heap[n].items[i].node, active + {n})
  {
    var g, items := Containment(heap), heap[n].items;
    if i :| 0 <= i < |items| && items[i].Ref? && Blocked(g, items[i].node, active + {n}) {
      var x :| Reaches(g, items[i].node, x) && (x in active + {n} || ReachesPlus(g, x, x));
      assert Ref(items[i].node) in items;
      ReachesVia(g, n, items[i].node, x);
    }
    if x :| Reaches(g, n, x) && (x in active || ReachesPlus(g, x, x)) {
      ReachesSplit(g, n, x);
      var c: Node;
      if x == n {
        c :| c in Succ(g, n) && Reaches(g, c, n);
        assert Blocked(g, c, active + {n});
      } else {
        c :| c in Succ(g, n) && Reaches(g, c, x);
        assert Blocked(g, c, active + {n});
      }
      var i :| 0 <= i < |items| && items[i] == Ref(c);
    }
  }

  /**
   The whole operation raises exactly when a cycle can be reached from the value; containers
   that are merely shared do not make it raise.
   */
  lemma RaisesExactlyOnCycles(k: Known, heap: Heap, item: Item)
    requires NonEmptySecrets(k.patterns) && WellFormedHeap(heap) && Resolves(heap, item)
    ensures Projected(k, heap, item, {}).None? <==> item.Ref? && CycleFrom(Containment(heap), item.node)
  {
    if item.Ref? {
      ProjectedFails(k, heap, item.node, {});
    }
  }

  // ---------- What comes out ----------

  /** Every mapping of the output has pairwise distinct keys, at any depth. */
  predicate WellKeyed(out: Out) {
    match out
    case OutText(_) => true
    case OutLeaf(_) => true
    case OutList(items) => forall i :: 0 <= i < |items| ==> WellKeyed(items[i])
    case OutTuple(items) => forall i :: 0 <= i < |items| ==> WellKeyed(items[i])
    case OutMapping(keys, items) =>
      && |keys| == |items| && (forall i, j :: 0 <= i < j < |keys| ==> keys[i] != keys[j])
      && forall i :: 0 <= i < |items| ==> WellKeyed(items[i])
  }

  /** Entry by entry the key under which the redacted key is stored. */
  ghost predicate KeysMirror(k: Known, keys: seq<Key>, output: seq<Key>)
    requires NonEmptySecrets(k.patterns)
  {
    exists entries ::
      && AreEntries(k, keys, entries) && IsMapping(entries) && |output| == |keys|
      && forall i :: 0 <= i < |keys| ==> output[i] == OutputKey(entries, i)
  }

  /** The output is the value, container by container, with every string redacted and every entry kept. */
  ghost predicate Mirrors(k: Known, heap: Heap, item: Item, out: Out)
    requires NonEmptySecrets(k.patterns) && WellFormedHeap(heap)
    decreases out
  {
    match item
    case Text(s) => out == OutText(RedactedText(k, s))
    case Leaf(v) => out == OutLeaf(v)
    case Ref(n) =>
      && n in heap
      && match heap[n]
         case ListOf(items) =>
           out.OutList? && |out.items| == |items| && forall i :: 0 <= i < |items| ==>
             Mirrors(k, heap, items[i], out.items[i])
         case TupleOf(items) =>
           out.OutTuple? && |out.items| == |items| && forall i :: 0 <= i < |items| ==>
             Mirrors(k, heap, items[i], out.items[i])
         case MappingOf(keys, items) =>
           && out.OutMapping? && KeysMirror(k, keys, out.keys) && |out.items| == |items|
           && forall i :: 0 <= i < |items| ==> Mirrors(k, heap, items[i], out.items[i])
  }

  lemma {:induction false} ProjectionMirrors(k: Known, heap: Heap, item: Item, active: set<Node>)
    requires NonEmptySecrets(k.patterns) && WellFormedHeap(heap) && Resolves(heap, item)
    requires Projected(k, heap, item, active).Some?
    ensures var out := Projected(k, heap, item, active).value; Mirrors(k, heap, item, out) && WellKeyed(out)
    decreases heap.Keys - active
  {
    if !item.Ref? {
    } else {
      var c := heap[item.node];
      var inside := active + {item.node};
      ProjectedEach(k, heap, c.items, inside);
      var children := ProjectedAll(k, heap, c.items, inside).value;
      forall i | 0 <= i < |c.items| ensures Mirrors(k, heap, c.items[i], children[i]) && WellKeyed(children[i]) {
        ProjectionMirrors(k, heap, c.items[i], inside);
      }
      if c.MappingOf? {
        var entries := EntriesOf(k, c.keys);
        forall i, j | 0 <= i < j < |entries| ensures OutputKey(entries, i) != OutputKey(entries, j) {
          OutputKeysAreDistinct(entries, i, j);
        }
      }
    }
  }

  lemma KeysMirrorIsUnique(k: Known, keys: seq<Key>, a: seq<Key>, b: seq<Key>)
    requires NonEmptySecrets(k.patterns) && KeysMirror(k, keys, a) && KeysMirror(k, keys, b)
    ensures a == b
  {
    hide OutputKey, RedactedText, IsMapping;
    var e :| AreEntries(k, keys, e) && IsMapping(e) && |a| == |keys|
      && forall i :: 0 <= i < |keys| ==> a[i] == OutputKey(e, i);
    var f :| AreEntries(k, keys, f) && IsMapping(f) && |b| == |keys|
      && forall i :: 0 <= i < |keys| ==> b[i] == OutputKey(f, i);
    assert e == f;
  }

  /** Only one output mirrors a value, so a shared container comes out the same wherever it occurs. */
  lemma {:induction false} MirrorsIsUnique(k: Known, heap: Heap, item: Item, a: Out, b: Out)
    requires NonEmptySecrets(k.patterns) && WellFormedHeap(heap) && Mirrors(k, heap, item, a)
      && Mirrors(k, heap, item, b)
    ensures a == b
    decreases a
  {
    if !item.Ref? {
    } else {
      hide KeysMirror;
      var items := heap[item.node].items;
      forall i | 0 <= i < |items| ensures a.items[i] == b.items[i] {
        MirrorsIsUnique(k, heap, items[i], a.items[i], b.items[i]);
      }
      assert a.items == b.items;
      if heap[item.node].MappingOf? {
        KeysMirrorIsUnique(k, heap[item.node].keys, a.keys, b.keys);
      }
    }
  }

  /** The object that walks a value, with its set of containers under way. */
  class SensitiveRedactor {
    const k: Known
    const heap: Heap
    var active: set<Node>

    constructor (k: Known, heap: Heap)
      ensures this.k == k && this.heap == heap && active == {}
    {
      this.k, this.heap := k, heap;
      active := {};
    }

    method Project(item: Item) returns (r: Option<Out>)
      requires NonEmptySecrets(k.patterns) && WellFormedHeap(heap) && Resolves(heap, item)
      modifies this
      ensures r == Projected(k, heap, item, old(active)) && active == old(active)
      decreases heap.Keys - active, 0
    {
      match item {
        case Text(s) => {
          var redacted := RedactText(k, s);
          r := Some(OutText(redacted));
        }
        case Leaf(v) => { r := Some(OutLeaf(v)); }
        case Ref(n) => {
          if n in active {
            return None;
          }
          active := active + {n};
          var c := heap[n];
          var children := ProjectAll(c.items);
          active := active - {n};
          if children.None? {
            return None;
          }
          match c {
            case ListOf(_) => { r := Some(OutList(children.value)); }
            case TupleOf(_) => { r := Some(OutTuple(children.value)); }
            case MappingOf(keys, _) => {
              var entries := RedactKeys(keys);
              var output := RenameKeys(entries);
              assert output == OutputKeys(entries);
              r := Some(OutMapping(output, children.value));
            }
          }
        }
      }
    }

    method ProjectAll(items: seq<Item>) returns (r: Option<seq<Out>>)
      requires NonEmptySecrets(k.patterns) && WellFormedHeap(heap) && forall i :: 0 <= i < |items| ==>
        Resolves(heap, items[i])
      modifies this
      ensures r == ProjectedAll(k, heap, items, old(active)) && active == old(active)
      decreases heap.Keys - active, |items| + 1
    {
      ghost var before := active;
      ProjectedEach(k, heap, items, before);
      var outs: seq<Out> := [];
      for i := 0 to |items|
        invariant active == before && |outs| == i
        invariant forall j :: 0 <= j < i ==> Projected(k, heap, items[j], before) == Some(outs[j])
      {
        var one := Project(items[i]);
        if one.None? {
          return None;
        }
        outs := outs + [one.value];
      }
      r := Some(outs);
      assert outs == ProjectedAll(k, heap, items, before).value;
    }

    method RedactKeys(keys: seq<Key>) returns (entries: seq<Entry>)
      requires NonEmptySecrets(k.patterns)
      ensures entries == EntriesOf(k, keys)
    {
      entries := [];
      for i := 0 to |keys|
        invariant |entries| == i && forall j :: 0 <= j < i ==> entries[j] == EntriesOf(k, keys)[j]
      {
        var candidate := keys[i];
        if candidate.TextKey? {
          var text := RedactText(k, candidate.text);
          candidate := TextKey(text);
        }
        entries := entries + [Entry(keys[i], candidate)];
      }
    }
  }

  /** The operation on a value: redacted as described, or refused exactly when it is cyclic. */
  method RedactSensitiveValue(k: Known, heap: Heap, item: Item) returns (r: Option<Out>)
    requires NonEmptySecrets(k.patterns) && WellFormedHeap(heap) && Resolves(heap, item)
    ensures r.None? <==> item.Ref? && CycleFrom(Containment(heap), item.node)
    ensures r.Some? ==> Mirrors(k, heap, item, r.value) && WellKeyed(r.value)
  {
    var walker := new SensitiveRedactor(k, heap);
    r := walker.Project(item);
    RaisesExactlyOnCycles(k, heap, item);
    if r.Some? {
      ProjectionMirrors(k, heap, item, {});
    }
  }
}
