/** Superclass before subclass across the whole of `inventory.py`. Within one emitter call the
    superclass comes right before its subclass (`Emission.ParentBeforeChild`); across calls the
    memo carries the guarantee: a superclass the emitter skips because its simple name is
    memoised was written earlier in the same session, since every memoised simple name is that
    of a class already written. */
module PythonFileOrder {
  import opened Wrappers
  import opened Text
  import opened Catalog
  import opened Emission
  import opened PythonText
  import opened PythonPasses
  import opened JsonTemplateSession

  /** Each class of `log` with a superclass finds that superclass's simple name in `memo` or
      among the classes written before it. */
  ghost predicate ParentsWritten(cat: Catalog, memo: set<string>, log: seq<string>)
    requires WellFormed(cat) && LogIn(cat, log)
  {
    forall j :: 0 <= j < |log| && cat[log[j]].parent.Some? ==>
      cat[cat[log[j]].parent.value].simpleName in memo + SimpleNames(cat, log[..j])
  }

  /** The first class one emitter call writes has no superclass or a memoised one. */
  lemma {:induction false} EmitFirstParentMemoised(cat: Catalog, memo: set<string>, q: string)
    requires WellFormed(cat) && q in cat
    ensures var first := EmitOrder(cat, memo, q)[0];
      cat[first].parent.Some? ==> cat[cat[first].parent.value].simpleName in memo
    decreases cat[q].depth
  {
    match cat[q].parent
    case None =>
    case Some(p) =>
      if cat[p].simpleName !in memo {
        EmitFirstParentMemoised(cat, memo, p);
        assert EmitOrder(cat, memo, q)[0] == EmitOrder(cat, memo, p)[0];
      }
  }

  /** One emitter call: the first class written has no superclass or a memoised one, and each
      later class has the class before it as superclass. */
  lemma EmitParentsWritten(cat: Catalog, memo: set<string>, q: string)
    requires WellFormed(cat) && q in cat
    ensures ParentsWritten(cat, memo, EmitOrder(cat, memo, q))
  {
    EmitFirstParentMemoised(cat, memo, q);
    ParentBeforeChild(cat, memo, q);
    ChainParentsWritten(cat, memo, EmitOrder(cat, memo, q));
  }

  /** A run of classes, each the direct subclass of the one before, whose first class has no
      superclass or a memoised one. */
  lemma ChainParentsWritten(cat: Catalog, memo: set<string>, order: seq<string>)
    requires WellFormed(cat) && LogIn(cat, order) && |order| > 0 && ParentFirst(cat, order)
    requires cat[order[0]].parent.Some? ==> cat[cat[order[0]].parent.value].simpleName in memo
    ensures ParentsWritten(cat, memo, order)
  {
    forall j | 0 < j < |order|
      ensures cat[order[j - 1]].simpleName in SimpleNames(cat, order[..j])
    {
      SimpleNamesAppend(cat, order[..j - 1], order[j - 1]);
      assert order[..j - 1] + [order[j - 1]] == order[..j];
    }
  }

  lemma ParentsWrittenAppend(cat: Catalog, memo: set<string>, a: seq<string>, b: seq<string>)
    requires WellFormed(cat) && LogIn(cat, a) && LogIn(cat, b)
    requires ParentsWritten(cat, memo, a) && ParentsWritten(cat, memo + SimpleNames(cat, a), b)
    ensures LogIn(cat, a + b) && ParentsWritten(cat, memo, a + b)
  {
    forall j | 0 <= j < |a + b| && cat[(a + b)[j]].parent.Some?
      ensures cat[cat[(a + b)[j]].parent.value].simpleName in memo + SimpleNames(cat, (a + b)[..j])
    {
      if j < |a| {
        assert (a + b)[..j] == a[..j] && (a + b)[j] == a[j];
      } else {
        var k := j - |a|;
        assert (a + b)[..j] == a + b[..k] && (a + b)[j] == b[k];
        SimpleNamesConcat(cat, a, b[..k]);
      }
    }
  }

  /** The message pass: the memo grows by exactly the simple names of the classes it writes,
      and each of those finds its superclass memoised or written before it. */
  lemma {:induction false} MessagePassParents(cat: Catalog, memo: set<string>, scan: seq<ScanEntry>)
    requires WellFormed(cat) && ScanIn(cat, scan)
    ensures var p := MessagePass(cat, memo, scan);
      p.memo == memo + SimpleNames(cat, p.log) && ParentsWritten(cat, memo, p.log)
  {
    if scan != [] {
      var n := |scan| - 1;
      ScanInPrefix(cat, scan, n);
      MessagePassParents(cat, memo, scan[..n]);
      var s, e := MessagePass(cat, memo, scan[..n]), scan[n];
      if e.Loaded? && !SkippedByMessagePass(cat[e.name]) && cat[e.name].simpleName !in s.memo {
        var order := EmitOrder(cat, s.memo, e.name);
        EmitParentsWritten(cat, s.memo, e.name);
        ParentsWrittenAppend(cat, memo, s.log, order);
        SimpleNamesConcat(cat, s.log, order);
      }
    }
  }

  /** The same for the inventory pass. */
  lemma {:induction false} InventoryPassParents(cat: Catalog, memo: set<string>, scan: seq<ScanEntry>)
    requires WellFormed(cat) && ScanIn(cat, scan)
    ensures var p := InventoryPass(cat, memo, scan);
      p.memo == memo + SimpleNames(cat, p.log) && ParentsWritten(cat, memo, p.log)
  {
    if scan != [] {
      var n := |scan| - 1;
      ScanInPrefix(cat, scan, n);
      InventoryPassParents(cat, memo, scan[..n]);
      var s, e := InventoryPass(cat, memo, scan[..n]), scan[n];
      if e.Loaded? && cat[e.name].simpleName !in s.memo {
        var order := EmitOrder(cat, s.memo, e.name);
        EmitParentsWritten(cat, s.memo, e.name);
        ParentsWrittenAppend(cat, memo, s.log, order);
        SimpleNamesConcat(cat, s.log, order);
      }
    }
  }

  /** The base section writes `APIMessage` first, with `object` as its Python base; every
      class after it finds its superclass memoised or written before it, and the memo grows by
      exactly the simple names written. */
  lemma BaseSectionParents(cat: Catalog, memo: set<string>)
    requires BaseClassesPresent(cat)
    ensures var base := BaseSection(cat, memo);
      |base.log| > 0 && base.log[0] == ApiMessageClass && base.memo == memo + SimpleNames(cat, base.log) &&
      ParentsWritten(cat, memo + {cat[ApiMessageClass].simpleName}, base.log[1..])
  {
    var memo1 := memo + {cat[ApiMessageClass].simpleName};
    var order := EmitOrder(cat, memo1, ApiDeleteMessageClass);
    var base := BaseSection(cat, memo);
    EmitParentsWritten(cat, memo1, ApiDeleteMessageClass);
    assert base.log[1..] == order;
    SimpleNamesAppend(cat, [], ApiMessageClass);
    assert [] + [ApiMessageClass] == [ApiMessageClass];
    SimpleNamesConcat(cat, [ApiMessageClass], order);
    SimpleNamesIn(cat, order);
    assert SimpleNameList(cat, order)[|order| - 1] == cat[ApiDeleteMessageClass].simpleName;
  }

  /** The classes one json-template session writes through the memo: the base section, the
      message pass, then the inventory pass, starting from an empty memo. */
  function SessionLog(cat: Catalog, scan: seq<ScanEntry>, inventoryScan: seq<ScanEntry>): (r: seq<string>)
    requires BaseClassesPresent(cat) && ScanIn(cat, scan) && ScanIn(cat, inventoryScan)
    ensures LogIn(cat, r)
  {
    var m := MessageModule(cat, {}, scan);
    m.log + InventoryPass(cat, m.memo, inventoryScan).log
  }

  /** After `APIMessage`, the session's classes find their superclasses written before them or
      in the memo that holds only `APIMessage`. */
  lemma SessionTailParents(cat: Catalog, scan: seq<ScanEntry>, inventoryScan: seq<ScanEntry>)
    requires BaseClassesPresent(cat) && ScanIn(cat, scan) && ScanIn(cat, inventoryScan)
    ensures var log := SessionLog(cat, scan, inventoryScan);
      |log| > 0 && log[0] == ApiMessageClass && ParentsWritten(cat, {cat[ApiMessageClass].simpleName}, log[1..])
  {
    var base := BaseSection(cat, {});
    BaseSectionParents(cat, {});
    BaseMemo(cat);
    var pass := MessagePass(cat, base.memo, scan);
    MessagePassParents(cat, base.memo, scan);
    var m := MessageModule(cat, {}, scan);
    var inv := InventoryPass(cat, m.memo, inventoryScan);
    InventoryPassParents(cat, m.memo, inventoryScan);
    var m0 := {cat[ApiMessageClass].simpleName};
    ThreeLogs(cat, m0, base.log[1..], pass.log, inv.log, base.memo, m.memo);
    DropFirst(base.log, pass.log, inv.log);
  }

  /** Superclasses first over three logs, each starting from the memo the one before leaves. */
  lemma ThreeLogs(cat: Catalog, m0: set<string>, a: seq<string>, b: seq<string>, c: seq<string>,
                  memo1: set<string>, memo2: set<string>)
    requires WellFormed(cat) && LogIn(cat, a) && LogIn(cat, b) && LogIn(cat, c)
    requires ParentsWritten(cat, m0, a)
    requires memo1 == m0 + SimpleNames(cat, a) && ParentsWritten(cat, memo1, b)
    requires memo2 == memo1 + SimpleNames(cat, b) && ParentsWritten(cat, memo2, c)
    ensures LogIn(cat, a + b + c) && ParentsWritten(cat, m0, a + b + c)
  {
    ParentsWrittenAppend(cat, m0, a, b);
    SimpleNamesConcat(cat, a, b);
    ParentsWrittenAppend(cat, m0, a + b, c);
  }

  lemma DropFirst<T>(x: seq<T>, b: seq<T>, c: seq<T>)
    requires |x| > 0
    ensures (x + b + c)[1..] == x[1..] + b + c
  {
  }

  /** Superclass before subclass over the classes one json-template session writes through the
      memo: every class after `APIMessage` that has a superclass comes after a class with that
      superclass's simple name, which is the base its Python class line names. */
  lemma SessionParentsWrittenFirst(cat: Catalog, scan: seq<ScanEntry>, inventoryScan: seq<ScanEntry>)
    requires BaseClassesPresent(cat) && ScanIn(cat, scan) && ScanIn(cat, inventoryScan)
    ensures var log := SessionLog(cat, scan, inventoryScan);
      |log| > 0 && log[0] == ApiMessageClass &&
      forall j :: 0 < j < |log| && cat[log[j]].parent.Some? ==>
        cat[cat[log[j]].parent.value].simpleName in SimpleNameList(cat, log[..j])
  {
    SessionTailParents(cat, scan, inventoryScan);
    ParentsAfterHead(cat, SessionLog(cat, scan, inventoryScan));
  }

  /** A log whose first class stands in for the memo lists every later class's superclass
      before it. */
  lemma ParentsAfterHead(cat: Catalog, log: seq<string>)
    requires WellFormed(cat) && LogIn(cat, log) && |log| > 0
    requires ParentsWritten(cat, {cat[log[0]].simpleName}, log[1..])
    ensures forall j :: 0 < j < |log| && cat[log[j]].parent.Some? ==>
      cat[cat[log[j]].parent.value].simpleName in SimpleNameList(cat, log[..j])
  {
    forall j | 0 < j < |log| && cat[log[j]].parent.Some?
      ensures cat[cat[log[j]].parent.value].simpleName in SimpleNameList(cat, log[..j])
    {
      ParentAfterHeadAt(cat, log, j);
    }
  }

  lemma ParentAfterHeadAt(cat: Catalog, log: seq<string>, j: nat)
    requires WellFormed(cat) && LogIn(cat, log) && 0 < j < |log| && cat[log[j]].parent.Some?
    requires ParentsWritten(cat, {cat[log[0]].simpleName}, log[1..])
    ensures cat[cat[log[j]].parent.value].simpleName in SimpleNameList(cat, log[..j])
  {
    var tail := log[1..];
    var name := cat[cat[log[j]].parent.value].simpleName;
    var pre := log[..j];
    assert log[j] == tail[j - 1];
    assert name in {cat[log[0]].simpleName} + SimpleNames(cat, tail[..j - 1]);
    if name == cat[log[0]].simpleName {
      assert SimpleNameList(cat, pre)[0] == name;
    } else {
      SimpleNamesIn(cat, tail[..j - 1]);
      var k :| 0 <= k < j - 1 && SimpleNameList(cat, tail[..j - 1])[k] == name;
      assert tail[..j - 1][k] == pre[k + 1];
      assert SimpleNameList(cat, pre)[k + 1] == name;
    }
  }

  /** A stretch of the text of `inventory.py`: classes written outside the memo, or the class
      `q` written through it. */
  datatype Item = Fixed(pieces: seq<string>) | Written(q: string, pieces: seq<string>)

  function ItemPieces(it: Item): seq<string> {
    it.pieces
  }

  /** The classes of `log`, each with its text `f(q)`. */
  ghost function Items(f: string --> seq<string>, log: seq<string>): (r: seq<Item>)
    requires forall i :: 0 <= i < |log| ==> f.requires(log[i])
    ensures |r| == |log| && forall i :: 0 <= i < |log| ==> r[i] == Written(log[i], f(log[i]))
  {
    if log == [] then [] else Items(f, log[..|log| - 1]) + [Written(log[|log| - 1], f(log[|log| - 1]))]
  }

  /** The simple names of the written classes among `items`. */
  ghost function WrittenNames(cat: Catalog, items: seq<Item>): set<string> {
    if items == [] then {}
    else
      var it := items[|items| - 1];
      WrittenNames(cat, items[..|items| - 1]) + (if it.Written? && it.q in cat then {cat[it.q].simpleName} else {})
  }

  lemma {:induction false} WrittenNamesAppend(cat: Catalog, a: seq<Item>, c: seq<Item>)
    ensures WrittenNames(cat, a + c) == WrittenNames(cat, a) + WrittenNames(cat, c)
  {
    if c == [] {
      assert a + c == a;
    } else {
      var n := |c| - 1;
      WrittenNamesAppend(cat, a, c[..n]);
      assert (a + c)[..|a + c| - 1] == a + c[..n];
      assert (a + c)[|a + c| - 1] == c[n];
    }
  }

  /** A name among the written names is that of some written item. */
  lemma {:induction false} WrittenNamesFrom(cat: Catalog, items: seq<Item>, name: string) returns (i: nat)
    requires name in WrittenNames(cat, items)
    ensures i < |items| && items[i].Written? && items[i].q in cat && cat[items[i].q].simpleName == name
  {
    var n := |items| - 1;
    var it := items[n];
    if it.Written? && it.q in cat && cat[it.q].simpleName == name {
      i := n;
    } else {
      i := WrittenNamesFrom(cat, items[..n], name);
    }
  }

  lemma {:induction false} ItemsNames(f: string --> seq<string>, cat: Catalog, log: seq<string>)
    requires LogIn(cat, log) && forall i :: 0 <= i < |log| ==> f.requires(log[i])
    ensures WrittenNames(cat, Items(f, log)) == SimpleNames(cat, log)
  {
    if log != [] {
      var n := |log| - 1;
      ItemsNames(f, cat, log[..n]);
      assert Items(f, log)[..n] == Items(f, log[..n]);
    }
  }

  lemma {:induction false} ItemsText(f: string --> seq<string>, log: seq<string>)
    requires forall i :: 0 <= i < |log| ==> f.requires(log[i])
    ensures ConcatMap(ItemPieces, Items(f, log)) == ConcatMap(f, log)
  {
    if log != [] {
      var n := |log| - 1;
      ItemsText(f, log[..n]);
      assert Items(f, log)[..n] == Items(f, log[..n]);
    }
  }

  /** `ParentsWritten` over items: only written classes are looked at. */
  ghost predicate ItemParentsWritten(cat: Catalog, memo: set<string>, items: seq<Item>)
    requires WellFormed(cat)
  {
    forall j :: 0 <= j < |items| && items[j].Written? && items[j].q in cat && cat[items[j].q].parent.Some? ==>
      cat[cat[items[j].q].parent.value].simpleName in memo + WrittenNames(cat, items[..j])
  }

  lemma ItemsParentsWritten(f: string --> seq<string>, cat: Catalog, memo: set<string>, log: seq<string>)
    requires WellFormed(cat) && LogIn(cat, log) && ParentsWritten(cat, memo, log)
    requires forall i :: 0 <= i < |log| ==> f.requires(log[i])
    ensures ItemParentsWritten(cat, memo, Items(f, log))
  {
    var items := Items(f, log);
    forall j | 0 <= j < |items| && items[j].Written? && items[j].q in cat && cat[items[j].q].parent.Some?
      ensures cat[cat[items[j].q].parent.value].simpleName in memo + WrittenNames(cat, items[..j])
    {
      ItemsPrefixNames(f, cat, log, j);
    }
  }

  lemma ItemsPrefixNames(f: string --> seq<string>, cat: Catalog, log: seq<string>, j: nat)
    requires LogIn(cat, log) && forall i :: 0 <= i < |log| ==> f.requires(log[i])
    requires j <= |log|
    ensures WrittenNames(cat, Items(f, log)[..j]) == SimpleNames(cat, log[..j])
  {
    assert Items(f, log)[..j] == Items(f, log[..j]);
    ItemsNames(f, cat, log[..j]);
  }

  lemma ItemParentsWrittenAppend(cat: Catalog, memo: set<string>, a: seq<Item>, c: seq<Item>)
    requires WellFormed(cat)
    requires ItemParentsWritten(cat, memo, a) && ItemParentsWritten(cat, memo + WrittenNames(cat, a), c)
    ensures ItemParentsWritten(cat, memo, a + c)
  {
    forall j | 0 <= j < |a + c| && (a + c)[j].Written? && (a + c)[j].q in cat && cat[(a + c)[j].q].parent.Some?
      ensures cat[cat[(a + c)[j].q].parent.value].simpleName in memo + WrittenNames(cat, (a + c)[..j])
    {
      if j < |a| {
        assert (a + c)[..j] == a[..j] && (a + c)[j] == a[j];
      } else {
        var k := j - |a|;
        assert (a + c)[..j] == a + c[..k] && (a + c)[j] == c[k];
        WrittenNamesAppend(cat, a, c[..k]);
      }
    }
  }

  /** Classes written outside the memo add no written name and need no superclass. */
  lemma FixedItem(cat: Catalog, memo: set<string>, pieces: seq<string>)
    requires WellFormed(cat)
    ensures ItemParentsWritten(cat, memo, [Fixed(pieces)]) && WrittenNames(cat, [Fixed(pieces)]) == {}
  {
    assert [Fixed(pieces)][..0] == [];
  }

  /** The classes of a json-template session, in the order they appear in `inventory.py`: the
      sentinel, `Session` and `ErrorCode` classes, `APIMessage`, the classes the base section
      writes through the emitter, the two search-condition classes, the message pass, the
      `api_names` list and the inventory pass. */
  ghost function SessionItems(cat: Catalog, scan: seq<ScanEntry>, inventoryScan: seq<ScanEntry>): seq<Item>
    requires BaseClassesPresent(cat) && ScanIn(cat, scan) && ScanIn(cat, inventoryScan)
  {
    var base := BaseSection(cat, {});
    var pass := MessagePass(cat, base.memo, scan);
    var m := MessageModule(cat, {}, scan);
    var inv := InventoryPass(cat, m.memo, inventoryScan);
    BaseSectionParents(cat, {});
    [Fixed(MandatoryFieldClassPieces() + SessionClassPieces + SimpleClassPieces(cat[ErrorCodeClass])),
     Written(ApiMessageClass, ApiMessageClassPieces(cat[ApiMessageClass]))]
    + Items(PiecesOf(MessageBinding, cat), base.log[1..])
    + [Fixed(SimpleClassPieces(cat[NolTripleClass]) + SimpleClassPieces(cat[NovTripleClass]))]
    + Items(PiecesOf(MessageBinding, cat), pass.log)
    + [Fixed(ApiNameListPieces(m.names))]
    + Items(PiecesOf(InventoryBinding, cat), inv.log)
  }

  /** The message pass's text is the text of the classes it logs, in order. */
  lemma {:induction false} MessagePassText(cat: Catalog, memo: set<string>, scan: seq<ScanEntry>)
    requires WellFormed(cat) && ScanIn(cat, scan)
    ensures var p := MessagePass(cat, memo, scan);
      (forall i :: 0 <= i < |p.log| ==> PiecesOf(MessageBinding, cat).requires(p.log[i])) &&
      p.text == ConcatMap(PiecesOf(MessageBinding, cat), p.log)
  {
    if scan != [] {
      var n := |scan| - 1;
      ScanInPrefix(cat, scan, n);
      MessagePassText(cat, memo, scan[..n]);
      var s, e := MessagePass(cat, memo, scan[..n]), scan[n];
      if e.Loaded? && !SkippedByMessagePass(cat[e.name]) && cat[e.name].simpleName !in s.memo {
        var order := EmitOrder(cat, s.memo, e.name);
        ClassTextsConcatMap(MessageBinding, cat, order);
        ConcatMapAppend(PiecesOf(MessageBinding, cat), s.log, order);
      }
    }
  }

  /** The inventory pass's text is the text of the classes it logs, in order. */
  lemma {:induction false} InventoryPassText(cat: Catalog, memo: set<string>, scan: seq<ScanEntry>)
    requires WellFormed(cat) && ScanIn(cat, scan)
    ensures var p := InventoryPass(cat, memo, scan);
      (forall i :: 0 <= i < |p.log| ==> PiecesOf(InventoryBinding, cat).requires(p.log[i])) &&
      p.text == ConcatMap(PiecesOf(InventoryBinding, cat), p.log)
  {
    if scan != [] {
      var n := |scan| - 1;
      ScanInPrefix(cat, scan, n);
      InventoryPassText(cat, memo, scan[..n]);
      var s, e := InventoryPass(cat, memo, scan[..n]), scan[n];
      if e.Loaded? && cat[e.name].simpleName !in s.memo {
        var order := EmitOrder(cat, s.memo, e.name);
        ClassTextsConcatMap(InventoryBinding, cat, order);
        ConcatMapAppend(PiecesOf(InventoryBinding, cat), s.log, order);
      }
    }
  }

  lemma Regroup<T>(mand: seq<T>, sess: seq<T>, ec: seq<T>, am: seq<T>, t1: seq<T>, nol: seq<T>, nov: seq<T>,
                   t2: seq<T>, n: seq<T>, t3: seq<T>)
    ensures (mand + sess + ec) + am + t1 + (nol + nov) + t2 + n + t3 ==
      mand + (sess + ec + (am + t1 + nol + nov) + t2 + n) + t3
  {
  }

  /** The items are the text the session writes from the catalog, stretch by stretch. */
  lemma SessionItemsText(cat: Catalog, scan: seq<ScanEntry>, inventoryScan: seq<ScanEntry>)
    requires BaseClassesPresent(cat) && ScanIn(cat, scan) && ScanIn(cat, inventoryScan)
    ensures ConcatMap(ItemPieces, SessionItems(cat, scan, inventoryScan)) == BindingClasses(cat, scan, inventoryScan)
  {
    var base := BaseSection(cat, {});
    BaseSectionParents(cat, {});
    var pass := MessagePass(cat, base.memo, scan);
    var m := MessageModule(cat, {}, scan);
    var inv := InventoryPass(cat, m.memo, inventoryScan);
    var order := base.log[1..];
    assert order == EmitOrder(cat, {} + {cat[ApiMessageClass].simpleName}, ApiDeleteMessageClass);
    ClassTextsConcatMap(MessageBinding, cat, order);
    MessagePassText(cat, base.memo, scan);
    InventoryPassText(cat, m.memo, inventoryScan);
    var fm, fi := PiecesOf(MessageBinding, cat), PiecesOf(InventoryBinding, cat);
    var f0 := Fixed(MandatoryFieldClassPieces() + SessionClassPieces + SimpleClassPieces(cat[ErrorCodeClass]));
    var w := Written(ApiMessageClass, ApiMessageClassPieces(cat[ApiMessageClass]));
    var f1 := Fixed(SimpleClassPieces(cat[NolTripleClass]) + SimpleClassPieces(cat[NovTripleClass]));
    var f2 := Fixed(ApiNameListPieces(m.names));
    var i1, i2, i3 := Items(fm, order), Items(fm, pass.log), Items(fi, inv.log);
    ItemsText(fm, order);
    ItemsText(fm, pass.log);
    ItemsText(fi, inv.log);
    ConcatSix(f0, w, f1, f2, i1, i2, i3);
    assert SessionItems(cat, scan, inventoryScan) == [f0, w] + i1 + [f1] + i2 + [f2] + i3;
    Regroup(MandatoryFieldClassPieces(), SessionClassPieces, SimpleClassPieces(cat[ErrorCodeClass]),
            ApiMessageClassPieces(cat[ApiMessageClass]), ConcatMap(fm, order), SimpleClassPieces(cat[NolTripleClass]),
            SimpleClassPieces(cat[NovTripleClass]), pass.text, ApiNameListPieces(m.names), inv.text);
  }

  lemma ConcatSix(f0: Item, w: Item, f1: Item, f2: Item, i1: seq<Item>, i2: seq<Item>, i3: seq<Item>)
    ensures ConcatMap(ItemPieces, [f0, w] + i1 + [f1] + i2 + [f2] + i3) ==
      f0.pieces + w.pieces + ConcatMap(ItemPieces, i1) + f1.pieces + ConcatMap(ItemPieces, i2) + f2.pieces +
      ConcatMap(ItemPieces, i3)
  {
    var h := [f0, w];
    ConcatPair(f0, w);
    var x1 := h + i1;
    ConcatMapAppend(ItemPieces, h, i1);
    var x2 := x1 + [f1];
    ConcatMapSnoc(ItemPieces, x1, f1);
    var x3 := x2 + i2;
    ConcatMapAppend(ItemPieces, x2, i2);
    var x4 := x3 + [f2];
    ConcatMapSnoc(ItemPieces, x3, f2);
    ConcatMapAppend(ItemPieces, x4, i3);
  }

  lemma ConcatPair(f0: Item, w: Item)
    ensures ConcatMap(ItemPieces, [f0, w]) == f0.pieces + w.pieces
  {
    ConcatMapSnoc(ItemPieces, [], f0);
    assert [] + [f0] == [f0];
    ConcatMapSnoc(ItemPieces, [f0], w);
    assert [f0] + [w] == [f0, w];
  }

  /** Each written item is its class's text in the message or the inventory binding. */
  ghost predicate ClassItems(cat: Catalog, items: seq<Item>)
    requires WellFormed(cat)
  {
    forall i :: 0 <= i < |items| && items[i].Written? ==>
      items[i].q in cat &&
      (items[i].pieces == ClassPieces(MessageBinding, cat, items[i].q) ||
       items[i].pieces == ClassPieces(InventoryBinding, cat, items[i].q))
  }

  lemma ClassItemsAppend(cat: Catalog, a: seq<Item>, c: seq<Item>)
    requires WellFormed(cat) && ClassItems(cat, a) && ClassItems(cat, c)
    ensures ClassItems(cat, a + c)
  {
    forall i | 0 <= i < |a + c| && (a + c)[i].Written?
      ensures (a + c)[i].q in cat &&
        ((a + c)[i].pieces == ClassPieces(MessageBinding, cat, (a + c)[i].q) ||
         (a + c)[i].pieces == ClassPieces(InventoryBinding, cat, (a + c)[i].q))
    {
      if i < |a| {
        assert (a + c)[i] == a[i];
      } else {
        assert (a + c)[i] == c[i - |a|];
      }
    }
  }

  lemma ItemsAreClasses(b: Binding, cat: Catalog, log: seq<string>)
    requires WellFormed(cat) && LogIn(cat, log)
    ensures ClassItems(cat, Items(PiecesOf(b, cat), log))
  {
    var items := Items(PiecesOf(b, cat), log);
    forall i | 0 <= i < |items| && items[i].Written?
      ensures items[i].q in cat &&
        (items[i].pieces == ClassPieces(MessageBinding, cat, items[i].q) ||
         items[i].pieces == ClassPieces(InventoryBinding, cat, items[i].q))
    {
      assert items[i] == Written(log[i], ClassPieces(b, cat, log[i]));
    }
  }

  /** The stretches of the session's items after `APIMessage`. */
  lemma SessionItemsSplit(cat: Catalog, scan: seq<ScanEntry>, inventoryScan: seq<ScanEntry>)
    requires BaseClassesPresent(cat) && ScanIn(cat, scan) && ScanIn(cat, inventoryScan)
    ensures var base := BaseSection(cat, {});
      var m := MessageModule(cat, {}, scan);
      var items := SessionItems(cat, scan, inventoryScan);
      |base.log| > 0 && |items| >= 2 && items[0].Fixed? &&
      items[1] == Written(ApiMessageClass, ApiMessageClassPieces(cat[ApiMessageClass])) &&
      items[2..] ==
        Items(PiecesOf(MessageBinding, cat), base.log[1..])
        + [Fixed(SimpleClassPieces(cat[NolTripleClass]) + SimpleClassPieces(cat[NovTripleClass]))]
        + Items(PiecesOf(MessageBinding, cat), MessagePass(cat, base.memo, scan).log)
        + [Fixed(ApiNameListPieces(m.names))]
        + Items(PiecesOf(InventoryBinding, cat), InventoryPass(cat, m.memo, inventoryScan).log)
  {
    BaseSectionParents(cat, {});
    var base := BaseSection(cat, {});
    var m := MessageModule(cat, {}, scan);
    DropHead(Fixed(MandatoryFieldClassPieces() + SessionClassPieces + SimpleClassPieces(cat[ErrorCodeClass])),
             Written(ApiMessageClass, ApiMessageClassPieces(cat[ApiMessageClass])),
             Fixed(SimpleClassPieces(cat[NolTripleClass]) + SimpleClassPieces(cat[NovTripleClass])),
             Fixed(ApiNameListPieces(m.names)),
             Items(PiecesOf(MessageBinding, cat), base.log[1..]),
             Items(PiecesOf(MessageBinding, cat), MessagePass(cat, base.memo, scan).log),
             Items(PiecesOf(InventoryBinding, cat), InventoryPass(cat, m.memo, inventoryScan).log));
  }

  lemma DropHead(x: Item, y: Item, f1: Item, f2: Item, i1: seq<Item>, i2: seq<Item>, i3: seq<Item>)
    ensures var s := [x, y] + i1 + [f1] + i2 + [f2] + i3;
      |s| >= 2 && s[0] == x && s[1] == y && s[2..] == i1 + [f1] + i2 + [f2] + i3
  {
  }

  /** The session's items: the fixed head, `APIMessage`, then only class texts written
      through the memo, each finding its superclass among the items before it or in the memo
      holding `APIMessage`. */
  lemma SessionItemsShape(cat: Catalog, scan: seq<ScanEntry>, inventoryScan: seq<ScanEntry>)
    requires BaseClassesPresent(cat) && ScanIn(cat, scan) && ScanIn(cat, inventoryScan)
    ensures var items := SessionItems(cat, scan, inventoryScan);
      |items| >= 2 && items[0].Fixed? &&
      items[1] == Written(ApiMessageClass, ApiMessageClassPieces(cat[ApiMessageClass])) &&
      ClassItems(cat, items[2..]) && ItemParentsWritten(cat, {cat[ApiMessageClass].simpleName}, items[2..])
  {
    SessionItemsSplit(cat, scan, inventoryScan);
    SessionItemsParents(cat, scan, inventoryScan);
    var base := BaseSection(cat, {});
    var m := MessageModule(cat, {}, scan);
    var fm, fi := PiecesOf(MessageBinding, cat), PiecesOf(InventoryBinding, cat);
    var f1 := Fixed(SimpleClassPieces(cat[NolTripleClass]) + SimpleClassPieces(cat[NovTripleClass]));
    var f2 := Fixed(ApiNameListPieces(m.names));
    var i1, i2, i3 := Items(fm, base.log[1..]), Items(fm, MessagePass(cat, base.memo, scan).log),
                      Items(fi, InventoryPass(cat, m.memo, inventoryScan).log);
    ItemsAreClasses(MessageBinding, cat, base.log[1..]);
    ItemsAreClasses(MessageBinding, cat, MessagePass(cat, base.memo, scan).log);
    ItemsAreClasses(InventoryBinding, cat, InventoryPass(cat, m.memo, inventoryScan).log);
    ClassItemsAppend(cat, i1, [f1]);
    ClassItemsAppend(cat, i1 + [f1], i2);
    ClassItemsAppend(cat, i1 + [f1] + i2, [f2]);
    ClassItemsAppend(cat, i1 + [f1] + i2 + [f2], i3);
  }

  lemma SessionItemsParents(cat: Catalog, scan: seq<ScanEntry>, inventoryScan: seq<ScanEntry>)
    requires BaseClassesPresent(cat) && ScanIn(cat, scan) && ScanIn(cat, inventoryScan)
    ensures var items := SessionItems(cat, scan, inventoryScan);
      |items| >= 2 && ItemParentsWritten(cat, {cat[ApiMessageClass].simpleName}, items[2..])
  {
    SessionItemsSplit(cat, scan, inventoryScan);
    SessionStretches(cat, scan, inventoryScan);
    var base := BaseSection(cat, {});
    var m := MessageModule(cat, {}, scan);
    var fm, fi := PiecesOf(MessageBinding, cat), PiecesOf(InventoryBinding, cat);
    FiveStretches(cat, {cat[ApiMessageClass].simpleName}, Items(fm, base.log[1..]),
                  Fixed(SimpleClassPieces(cat[NolTripleClass]) + SimpleClassPieces(cat[NovTripleClass])),
                  Items(fm, MessagePass(cat, base.memo, scan).log), Fixed(ApiNameListPieces(m.names)),
                  Items(fi, InventoryPass(cat, m.memo, inventoryScan).log), base.memo, m.memo);
  }

  /** Each of the three stretches of written classes, with the memo it starts from. */
  lemma SessionStretches(cat: Catalog, scan: seq<ScanEntry>, inventoryScan: seq<ScanEntry>)
    requires BaseClassesPresent(cat) && ScanIn(cat, scan) && ScanIn(cat, inventoryScan)
    ensures var base := BaseSection(cat, {});
      var m := MessageModule(cat, {}, scan);
      var m0 := {cat[ApiMessageClass].simpleName};
      var i1 := Items(PiecesOf(MessageBinding, cat), base.log[1..]);
      var i2 := Items(PiecesOf(MessageBinding, cat), MessagePass(cat, base.memo, scan).log);
      var i3 := Items(PiecesOf(InventoryBinding, cat), InventoryPass(cat, m.memo, inventoryScan).log);
      |base.log| > 0 &&
      ItemParentsWritten(cat, m0, i1) && base.memo == m0 + WrittenNames(cat, i1) &&
      ItemParentsWritten(cat, base.memo, i2) && m.memo == base.memo + WrittenNames(cat, i2) &&
      ItemParentsWritten(cat, m.memo, i3)
  {
    BaseStretch(cat);
    PassStretch(cat, BaseSection(cat, {}).memo, scan);
    var m := MessageModule(cat, {}, scan);
    InventoryStretch(cat, m.memo, inventoryScan);
  }

  /** The base section's classes after `APIMessage`, starting from a memo of `APIMessage`. */
  lemma BaseStretch(cat: Catalog)
    requires BaseClassesPresent(cat)
    ensures var base := BaseSection(cat, {});
      var m0 := {cat[ApiMessageClass].simpleName};
      var i1 := Items(PiecesOf(MessageBinding, cat), base.log[1..]);
      |base.log| > 0 && ItemParentsWritten(cat, m0, i1) && base.memo == m0 + WrittenNames(cat, i1)
  {
    var base := BaseSection(cat, {});
    BaseSectionParents(cat, {});
    BaseMemo(cat);
    var fm := PiecesOf(MessageBinding, cat);
    ItemsNames(fm, cat, base.log[1..]);
    ItemsParentsWritten(fm, cat, {cat[ApiMessageClass].simpleName}, base.log[1..]);
  }

  /** The message pass's classes, starting from the memo it is given. */
  lemma PassStretch(cat: Catalog, memo: set<string>, scan: seq<ScanEntry>)
    requires WellFormed(cat) && ScanIn(cat, scan)
    ensures var p := MessagePass(cat, memo, scan);
      var i2 := Items(PiecesOf(MessageBinding, cat), p.log);
      ItemParentsWritten(cat, memo, i2) && p.memo == memo + WrittenNames(cat, i2)
  {
    var p := MessagePass(cat, memo, scan);
    MessagePassParents(cat, memo, scan);
    var fm := PiecesOf(MessageBinding, cat);
    ItemsNames(fm, cat, p.log);
    ItemsParentsWritten(fm, cat, memo, p.log);
  }

  /** The inventory pass's classes, starting from the memo it is given. */
  lemma InventoryStretch(cat: Catalog, memo: set<string>, scan: seq<ScanEntry>)
    requires WellFormed(cat) && ScanIn(cat, scan)
    ensures ItemParentsWritten(cat, memo, Items(PiecesOf(InventoryBinding, cat), InventoryPass(cat, memo, scan).log))
  {
    InventoryPassParents(cat, memo, scan);
    ItemsParentsWritten(PiecesOf(InventoryBinding, cat), cat, memo, InventoryPass(cat, memo, scan).log);
  }

  /** The base section's memo holds `APIMessage` and the classes written after it. */
  lemma BaseMemo(cat: Catalog)
    requires BaseClassesPresent(cat)
    ensures var base := BaseSection(cat, {});
      |base.log| > 0 && base.memo == {cat[ApiMessageClass].simpleName} + SimpleNames(cat, base.log[1..])
  {
    var base := BaseSection(cat, {});
    BaseSectionParents(cat, {});
    var m0 := {cat[ApiMessageClass].simpleName};
    var order := base.log[1..];
    assert base.log == [ApiMessageClass] + order;
    SimpleNamesAppend(cat, [], ApiMessageClass);
    assert [] + [ApiMessageClass] == [ApiMessageClass];
    SimpleNamesConcat(cat, [ApiMessageClass], order);
    assert {} + m0 == m0;
  }

  /** Superclasses first over three stretches of written classes separated by fixed text. */
  lemma FiveStretches(cat: Catalog, m0: set<string>, i1: seq<Item>, f1: Item, i2: seq<Item>, f2: Item, i3: seq<Item>,
                      memo1: set<string>, memo2: set<string>)
    requires WellFormed(cat) && f1.Fixed? && f2.Fixed?
    requires ItemParentsWritten(cat, m0, i1)
    requires memo1 == m0 + WrittenNames(cat, i1) && ItemParentsWritten(cat, memo1, i2)
    requires memo2 == memo1 + WrittenNames(cat, i2) && ItemParentsWritten(cat, memo2, i3)
    ensures ItemParentsWritten(cat, m0, i1 + [f1] + i2 + [f2] + i3)
  {
    FixedItem(cat, memo1, f1.pieces);
    FixedItem(cat, memo2, f2.pieces);
    WrittenNamesAppend(cat, i1, [f1]);
    ItemParentsWrittenAppend(cat, m0, i1, [f1]);
    ItemParentsWrittenAppend(cat, m0, i1 + [f1], i2);
    WrittenNamesAppend(cat, i1 + [f1], i2);
    ItemParentsWrittenAppend(cat, m0, i1 + [f1] + i2, [f2]);
    WrittenNamesAppend(cat, i1 + [f1] + i2, [f2]);
    ItemParentsWrittenAppend(cat, m0, i1 + [f1] + i2 + [f2], i3);
  }

  /** Item `j` is a written class with a superclass, and item `i` before it is a written class of
      that superclass's simple name, whose text comes whole before item `j`'s in `text`. */
  ghost predicate DefinedBefore(cat: Catalog, items: seq<Item>, text: seq<string>, i: nat, j: nat) {
    i < j < |items| && items[i].Written? && items[j].Written? && items[i].q in cat && items[j].q in cat &&
    cat[items[j].q].parent.Some? && cat[items[j].q].parent.value in cat &&
    cat[items[i].q].simpleName == cat[cat[items[j].q].parent.value].simpleName &&
    text == ConcatMap(ItemPieces, items[..i]) + items[i].pieces + ConcatMap(ItemPieces, items[i + 1..j]) +
            items[j].pieces + ConcatMap(ItemPieces, items[j + 1..])
  }

  /** Superclass before subclass in `inventory.py`: each class the session writes through the
      memo after `APIMessage` whose superclass is not `Object` names, as its Python base, a
      class written earlier in the file, and that class's text comes whole before its own. */
  lemma BaseDefinedBeforeSubclass(cat: Catalog, scan: seq<ScanEntry>, inventoryScan: seq<ScanEntry>, j: nat)
    returns (i: nat)
    requires BaseClassesPresent(cat) && ScanIn(cat, scan) && ScanIn(cat, inventoryScan)
    requires var items := SessionItems(cat, scan, inventoryScan);
      1 < j < |items| && items[j].Written? && items[j].q in cat && cat[items[j].q].parent.Some?
    ensures DefinedBefore(cat, SessionItems(cat, scan, inventoryScan), BindingClasses(cat, scan, inventoryScan), i, j)
  {
    var items := SessionItems(cat, scan, inventoryScan);
    i := ParentItemBefore(cat, scan, inventoryScan, j);
    SessionItemsText(cat, scan, inventoryScan);
    DefinedBeforeFromOrder(cat, items, BindingClasses(cat, scan, inventoryScan), i, j);
  }

  lemma DefinedBeforeFromOrder(cat: Catalog, items: seq<Item>, text: seq<string>, i: nat, j: nat)
    requires i < j < |items| && items[i].Written? && items[j].Written? && items[i].q in cat && items[j].q in cat
    requires cat[items[j].q].parent.Some? && cat[items[j].q].parent.value in cat
    requires cat[items[i].q].simpleName == cat[cat[items[j].q].parent.value].simpleName
    requires text == ConcatMap(ItemPieces, items)
    ensures DefinedBefore(cat, items, text, i, j)
  {
    ConcatMapOrder(ItemPieces, items, i, j);
  }

  /** The item whose simple name a later item's superclass has. */
  lemma ParentItemBefore(cat: Catalog, scan: seq<ScanEntry>, inventoryScan: seq<ScanEntry>, j: nat) returns (i: nat)
    requires BaseClassesPresent(cat) && ScanIn(cat, scan) && ScanIn(cat, inventoryScan)
    requires var items := SessionItems(cat, scan, inventoryScan);
      1 < j < |items| && items[j].Written? && items[j].q in cat && cat[items[j].q].parent.Some?
    ensures var items := SessionItems(cat, scan, inventoryScan);
      var parent := cat[items[j].q].parent.value;
      i < j && items[i].Written? && items[i].q in cat && parent in cat &&
      cat[items[i].q].simpleName == cat[parent].simpleName
  {
    SessionItemsParents(cat, scan, inventoryScan);
    SessionItemsHead(cat, scan, inventoryScan);
    i := ItemBefore(cat, SessionItems(cat, scan, inventoryScan), j);
  }

  lemma SessionItemsHead(cat: Catalog, scan: seq<ScanEntry>, inventoryScan: seq<ScanEntry>)
    requires BaseClassesPresent(cat) && ScanIn(cat, scan) && ScanIn(cat, inventoryScan)
    ensures var items := SessionItems(cat, scan, inventoryScan);
      |items| >= 2 && items[0].Fixed? && items[1].Written? && items[1].q == ApiMessageClass
  {
    SessionItemsSplit(cat, scan, inventoryScan);
  }

  lemma ItemBefore(cat: Catalog, items: seq<Item>, j: nat) returns (i: nat)
    requires WellFormed(cat) && |items| >= 2 && items[0].Fixed? && items[1].Written? && items[1].q in cat
    requires ItemParentsWritten(cat, {cat[items[1].q].simpleName}, items[2..])
    requires 1 < j < |items| && items[j].Written? && items[j].q in cat && cat[items[j].q].parent.Some?
    ensures var parent := cat[items[j].q].parent.value;
      i < j && items[i].Written? && items[i].q in cat && parent in cat &&
      cat[items[i].q].simpleName == cat[parent].simpleName
  {
    var tail := items[2..];
    var c := cat[items[j].q];
    var name := cat[c.parent.value].simpleName;
    assert tail[j - 2] == items[j] && tail[..j - 2] == items[2..j];
    assert name in {cat[items[1].q].simpleName} + WrittenNames(cat, items[2..j]);
    HeadNames(cat, items[0], items[1], items[2..j]);
    assert items[..j] == [items[0], items[1]] + items[2..j];
    i := WrittenNamesFrom(cat, items[..j], name);
    assert items[..j][i] == items[i];
  }

  lemma HeadNames(cat: Catalog, x: Item, y: Item, rest: seq<Item>)
    requires x.Fixed? && y.Written? && y.q in cat
    ensures WrittenNames(cat, [x, y] + rest) == {cat[y.q].simpleName} + WrittenNames(cat, rest)
  {
    WrittenNamesAppend(cat, [x, y], rest);
    assert [x, y][..1] == [x] && [x][..0] == [] && [x, y][1] == y && [x][0] == x;
    assert WrittenNames(cat, [x]) == {};
  }
}
