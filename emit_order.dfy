/** Which classes one call of a recursive Python emitter writes. The emitter first emits the
    superclass unless its simple name is already in the memo, recursively, and then the class
    itself. Every check runs against the memo as it was at the call, because nothing is
    marked until the recursion unwinds. */
module Emission {
  import opened Wrappers
  import opened Text
  import opened Catalog

  /** The classes written by one call, superclass first. */
  function EmitOrder(cat: Catalog, memo: set<string>, q: string): (r: seq<string>)
    requires WellFormed(cat) && q in cat
    ensures |r| > 0 && r[|r| - 1] == q
    ensures forall i :: 0 <= i < |r| ==> r[i] in cat
    decreases cat[q].depth
  {
    match cat[q].parent
    case Some(p) => if cat[p].simpleName !in memo then EmitOrder(cat, memo, p) + [q] else [q]
    case None => [q]
  }

  /** One step of the recursion: the superclass's classes, when it is not memoised, then the class. */
  function Before(cat: Catalog, memo: set<string>, q: string): (r: seq<string>)
    requires WellFormed(cat) && q in cat
    ensures forall i :: 0 <= i < |r| ==> r[i] in cat
  {
    if cat[q].parent.Some? && cat[cat[q].parent.value].simpleName !in memo then EmitOrder(cat, memo, cat[q].parent.value)
    else []
  }

  lemma EmitOrderStep(cat: Catalog, memo: set<string>, q: string)
    requires WellFormed(cat) && q in cat
    ensures EmitOrder(cat, memo, q) == Before(cat, memo, q) + [q]
  {
  }

  /** The simple name of a class's superclass, `None` when that is `Object`. */
  function ParentSimpleName(cat: Catalog, q: string): Option<string>
    requires WellFormed(cat) && q in cat
  {
    match cat[q].parent
    case Some(p) => Some(cat[p].simpleName)
    case None => None
  }

  /** What is written is the tail of the class's superclass chain: it stops just below a
      superclass that was already in the memo, or at the root. */
  lemma {:induction false} EmitOrderIsChainSuffix(cat: Catalog, memo: set<string>, q: string)
    requires WellFormed(cat) && q in cat
    ensures var order, chain := EmitOrder(cat, memo, q), Chain(cat, q);
      |order| <= |chain| && order == chain[|chain| - |order|..] &&
      (|order| < |chain| ==> cat[chain[|chain| - |order| - 1]].simpleName in memo)
    decreases cat[q].depth
  {
    match cat[q].parent
    case None =>
      assert EmitOrder(cat, memo, q) == [q] == Chain(cat, q);
    case Some(p) =>
      var order, chain := EmitOrder(cat, memo, q), Chain(cat, q);
      assert chain == Chain(cat, p) + [q];
      if cat[p].simpleName !in memo {
        EmitOrderIsChainSuffix(cat, memo, p);
        var po, pc := EmitOrder(cat, memo, p), Chain(cat, p);
        assert order == po + [q];
        SuffixSnoc(pc, po, q);
      } else {
        var pc := Chain(cat, p);
        assert order == [q] == chain[|chain| - 1..];
        assert chain[|chain| - 2] == pc[|pc| - 1] == p;
      }
  }

  /** Each class of `s` is the superclass of the next one. */
  ghost predicate ParentFirst(cat: Catalog, s: seq<string>) {
    forall i :: 0 < i < |s| ==> s[i] in cat && cat[s[i]].parent == Some(s[i - 1])
  }

  /** Superclass before subclass: each class written is the superclass of the next one. */
  lemma {:induction false} ParentBeforeChild(cat: Catalog, memo: set<string>, q: string)
    requires WellFormed(cat) && q in cat
    ensures ParentFirst(cat, EmitOrder(cat, memo, q))
    decreases cat[q].depth
  {
    match cat[q].parent
    case None =>
    case Some(p) =>
      if cat[p].simpleName !in memo {
        ParentBeforeChild(cat, memo, p);
        var order, po := EmitOrder(cat, memo, q), EmitOrder(cat, memo, p);
        assert order == po + [q];
        forall i | 0 < i < |order| ensures order[i] in cat && cat[order[i]].parent == Some(order[i - 1]) {
          if i < |po| {
            assert order[i] == po[i] && order[i - 1] == po[i - 1];
          } else {
            assert order[i] == q && order[i - 1] == po[|po| - 1] == p;
          }
        }
      }
  }

  /** With no superclass memoised, the whole chain is written, root first. */
  lemma EmitOrderComplete(cat: Catalog, memo: set<string>, q: string)
    requires WellFormed(cat) && q in cat
    requires forall i :: 0 <= i < |Chain(cat, q)| - 1 ==> cat[Chain(cat, q)[i]].simpleName !in memo
    ensures EmitOrder(cat, memo, q) == Chain(cat, q)
  {
    EmitOrderIsChainSuffix(cat, memo, q);
  }

  /** A memo that holds, with every class's simple name, that of its superclass. */
  ghost predicate MemoClosed(cat: Catalog, memo: set<string>) {
    forall x :: x in cat && cat[x].simpleName in memo && cat[x].parent.Some? && cat[x].parent.value in cat ==>
      cat[cat[x].parent.value].simpleName in memo
  }

  lemma {:induction false} ClosedBelow(cat: Catalog, memo: set<string>, chain: seq<string>, j: nat)
    requires WellFormed(cat) && MemoClosed(cat, memo)
    requires forall i :: 0 <= i < |chain| ==> chain[i] in cat
    requires forall i :: 0 < i < |chain| ==> cat[chain[i]].parent == Some(chain[i - 1])
    requires j < |chain| && cat[chain[j]].simpleName in memo
    ensures forall i :: 0 <= i <= j ==> cat[chain[i]].simpleName in memo
  {
    if j > 0 {
      assert cat[chain[j - 1]].simpleName in memo;
      ClosedBelow(cat, memo, chain, j - 1);
    }
  }

  /** After the call the class and all its superclasses are in the memo, provided the memo was
      closed under "superclass of" before it. */
  lemma AncestorsMemoised(cat: Catalog, memo: set<string>, q: string)
    requires WellFormed(cat) && q in cat && MemoClosed(cat, memo)
    ensures var after := memo + SimpleNames(cat, EmitOrder(cat, memo, q));
      forall i :: 0 <= i < |Chain(cat, q)| ==> cat[Chain(cat, q)[i]].simpleName in after
  {
    EmitOrderIsChainSuffix(cat, memo, q);
    ChainLinked(cat, q);
    var order, chain := EmitOrder(cat, memo, q), Chain(cat, q);
    var k := |chain| - |order|;
    var names := SimpleNameList(cat, order);
    SimpleNamesIn(cat, order);
    if k > 0 {
      ClosedBelow(cat, memo, chain, k - 1);
    }
    forall i | 0 <= i < |chain| ensures cat[chain[i]].simpleName in memo + SimpleNames(cat, order) {
      if i >= k {
        assert chain[i] == order[i - k];
        assert names[i - k] in names;
      }
    }
  }

  /** No class is written twice by one call. */
  lemma EmitOrderNoDup(cat: Catalog, memo: set<string>, q: string)
    requires WellFormed(cat) && q in cat
    ensures NoDup(EmitOrder(cat, memo, q))
  {
    EmitOrderIsChainSuffix(cat, memo, q);
    ChainIncreasing(cat, q);
    var chain := Chain(cat, q);
    NoDupSuffix(chain, |chain| - |EmitOrder(cat, memo, q)|);
  }

  /** None of the classes of `s` has its simple name in the memo. */
  ghost predicate Fresh(cat: Catalog, memo: set<string>, s: seq<string>) {
    forall i :: 0 <= i < |s| ==> s[i] in cat && cat[s[i]].simpleName !in memo
  }

  /** With the class itself not memoised, no class written was in the memo: the recursion
      stops before the first memoised superclass. */
  lemma {:induction false} EmitOrderFresh(cat: Catalog, memo: set<string>, q: string)
    requires WellFormed(cat) && q in cat && cat[q].simpleName !in memo
    ensures Fresh(cat, memo, EmitOrder(cat, memo, q))
    decreases cat[q].depth
  {
    match cat[q].parent
    case None =>
    case Some(p) =>
      if cat[p].simpleName !in memo {
        EmitOrderFresh(cat, memo, p);
        var order, po := EmitOrder(cat, memo, q), EmitOrder(cat, memo, p);
        assert order == po + [q];
        forall i | 0 <= i < |order| ensures order[i] in cat && cat[order[i]].simpleName !in memo {
          if i < |po| {
            assert order[i] == po[i];
          }
        }
      }
  }

  lemma FreshNames(cat: Catalog, memo: set<string>, s: seq<string>)
    requires Fresh(cat, memo, s)
    ensures SimpleNames(cat, s) !! memo
  {
    SimpleNamesIn(cat, s);
    var names := SimpleNameList(cat, s);
    forall n | n in SimpleNames(cat, s) ensures n !in memo {
      var i :| 0 <= i < |names| && names[i] == n;
    }
  }

  lemma UniqueNames(cat: Catalog, s: seq<string>)
    requires UniqueSimpleNames(cat) && NoDup(s) && forall i :: 0 <= i < |s| ==> s[i] in cat
    ensures NoDup(SimpleNameList(cat, s))
  {
    var names := SimpleNameList(cat, s);
    forall i, j | 0 <= i < j < |names| ensures names[i] != names[j] {
      assert s[i] != s[j];
    }
  }

  /** With simple names unique and the class itself not memoised, one call writes no simple
      name twice and none that was already in the memo. */
  lemma EmitOrderOnce(cat: Catalog, memo: set<string>, q: string)
    requires WellFormed(cat) && UniqueSimpleNames(cat) && q in cat
    requires cat[q].simpleName !in memo
    ensures var order := EmitOrder(cat, memo, q);
      NoDup(SimpleNameList(cat, order)) && SimpleNames(cat, order) !! memo
  {
    EmitOrderNoDup(cat, memo, q);
    UniqueNames(cat, EmitOrder(cat, memo, q));
    EmitOrderFresh(cat, memo, q);
    FreshNames(cat, memo, EmitOrder(cat, memo, q));
  }
}
