/** Properties of the Python passes: parent text before child text, at most one class per simple
    name in a session, and which classes the `api_names` list names. */
module PythonProperties {
  import opened Wrappers
  import opened Text
  import opened Catalog
  import opened Emission
  import opened PythonPasses

  /** In the text of one emitter call, the class text of each class written comes whole
      before that of every class written after it; in particular a superclass's text comes
      before its subclass's (`ParentBeforeChild`). */
  lemma ClassTextOrder(b: Binding, cat: Catalog, order: seq<string>, i: nat, j: nat)
    requires WellFormed(cat) && LogIn(cat, order) && i < j < |order|
    ensures ClassTexts(b, cat, order) ==
      ClassTexts(b, cat, order[..i]) + ClassPieces(b, cat, order[i]) + ClassTexts(b, cat, order[i + 1..j])
      + ClassPieces(b, cat, order[j]) + ClassTexts(b, cat, order[j + 1..])
  {
    ClassTextsConcatMap(b, cat, order);
    ClassTextsConcatMap(b, cat, order[..i]);
    ClassTextsConcatMap(b, cat, order[i + 1..j]);
    ClassTextsConcatMap(b, cat, order[j + 1..]);
    ConcatMapOrder(PiecesOf(b, cat), order, i, j);
  }

  /** Every class written is in the memo, and no simple name was written twice. */
  ghost predicate Once(cat: Catalog, memo: set<string>, log: seq<string>)
    requires LogIn(cat, log)
  {
    NoDup(SimpleNameList(cat, log)) && forall i :: 0 <= i < |log| ==> cat[log[i]].simpleName in memo
  }

  /** One emitter call on a class that is not memoised keeps `Once`. */
  lemma EmitKeepsOnce(cat: Catalog, memo: set<string>, log: seq<string>, q: string)
    requires WellFormed(cat) && UniqueSimpleNames(cat) && q in cat && LogIn(cat, log)
    requires Once(cat, memo, log) && cat[q].simpleName !in memo
    ensures var order := EmitOrder(cat, memo, q);
      LogIn(cat, log + order) && Once(cat, memo + SimpleNames(cat, order), log + order)
  {
    var order := EmitOrder(cat, memo, q);
    EmitOrderOnce(cat, memo, q);
    SimpleNamesIn(cat, order);
    SimpleNamesConcat(cat, log, order);
    var a, c := SimpleNameList(cat, log), SimpleNameList(cat, order);
    forall i, j | 0 <= i < |a| && 0 <= j < |c| ensures a[i] != c[j] {
      assert a[i] in memo;
      assert c[j] in c;
    }
    NoDupConcat(a, c);
    forall i | 0 <= i < |log + order| ensures cat[(log + order)[i]].simpleName in memo + SimpleNames(cat, order) {
      if i >= |log| {
        assert (log + order)[i] == order[i - |log|];
        assert c[i - |log|] in c;
      }
    }
  }

  /** The message pass keeps `Once`. */
  lemma {:induction false} MessagePassOnce(cat: Catalog, memo: set<string>, scan: seq<ScanEntry>, log: seq<string>)
    requires WellFormed(cat) && UniqueSimpleNames(cat) && ScanIn(cat, scan) && LogIn(cat, log)
    requires Once(cat, memo, log)
    ensures var p := MessagePass(cat, memo, scan);
      LogIn(cat, log + p.log) && Once(cat, p.memo, log + p.log)
  {
    if scan == [] {
      assert log + [] == log;
    } else {
      var n := |scan| - 1;
      ScanInPrefix(cat, scan, n);
      MessagePassOnce(cat, memo, scan[..n], log);
      var s, e := MessagePass(cat, memo, scan[..n]), scan[n];
      assert scan[..n + 1] == scan;
      if e.Loaded? && !SkippedByMessagePass(cat[e.name]) && cat[e.name].simpleName !in s.memo {
        MessagePassEmit(cat, memo, scan, n);
        EmitKeepsOnce(cat, s.memo, log + s.log, e.name);
        AppendAssoc(log, s.log, EmitOrder(cat, s.memo, e.name));
      } else {
        MessagePassSkip(cat, memo, scan, n);
      }
    }
  }

  /** The inventory pass keeps `Once`. */
  lemma {:induction false} InventoryPassOnce(cat: Catalog, memo: set<string>, scan: seq<ScanEntry>, log: seq<string>)
    requires WellFormed(cat) && UniqueSimpleNames(cat) && ScanIn(cat, scan) && LogIn(cat, log)
    requires Once(cat, memo, log)
    ensures var p := InventoryPass(cat, memo, scan);
      LogIn(cat, log + p.log) && Once(cat, p.memo, log + p.log)
  {
    if scan == [] {
      assert log + [] == log;
    } else {
      var n := |scan| - 1;
      ScanInPrefix(cat, scan, n);
      InventoryPassOnce(cat, memo, scan[..n], log);
      var s, e := InventoryPass(cat, memo, scan[..n]), scan[n];
      assert scan[..n + 1] == scan;
      if e.Loaded? && cat[e.name].simpleName !in s.memo {
        InventoryPassEmit(cat, memo, scan, n);
        EmitKeepsOnce(cat, s.memo, log + s.log, e.name);
        AppendAssoc(log, s.log, EmitOrder(cat, s.memo, e.name));
      } else {
        InventoryPassSkip(cat, memo, scan, n);
      }
    }
  }

  /** Writing one class whose simple name is not memoised, and memoising it, keeps `Once`. */
  lemma WriteOneKeepsOnce(cat: Catalog, memo: set<string>, log: seq<string>, q: string)
    requires WellFormed(cat) && q in cat && LogIn(cat, log)
    requires Once(cat, memo, log) && cat[q].simpleName !in memo
    ensures LogIn(cat, log + [q]) && Once(cat, memo + {cat[q].simpleName}, log + [q])
  {
    SimpleNamesAppend(cat, log, q);
    var a := SimpleNameList(cat, log);
    forall i, j | 0 <= i < |a| && 0 <= j < 1 ensures a[i] != [cat[q].simpleName][j] {
      assert a[i] in memo;
    }
    NoDupConcat(a, [cat[q].simpleName]);
  }

  /** `Once` survives a larger memo. */
  lemma OnceWider(cat: Catalog, memo: set<string>, memo': set<string>, log: seq<string>)
    requires LogIn(cat, log) && Once(cat, memo, log) && memo <= memo'
    ensures Once(cat, memo', log)
  {
  }

  /** The base section keeps `Once` when `APIMessage` is not yet memoised. */
  lemma BaseSectionOnce(cat: Catalog, memo: set<string>, log: seq<string>)
    requires BaseClassesPresent(cat) && UniqueSimpleNames(cat) && LogIn(cat, log)
    requires Once(cat, memo, log)
    requires cat[ApiMessageClass].simpleName !in memo && cat[ApiDeleteMessageClass].simpleName !in memo
    ensures var base := BaseSection(cat, memo);
      LogIn(cat, log + base.log) && Once(cat, base.memo, log + base.log)
  {
    var memo1 := memo + {cat[ApiMessageClass].simpleName};
    var log1 := log + [ApiMessageClass];
    var order := EmitOrder(cat, memo1, ApiDeleteMessageClass);
    WriteOneKeepsOnce(cat, memo, log, ApiMessageClass);
    EmitKeepsOnce(cat, memo1, log1, ApiDeleteMessageClass);
    var base := BaseSection(cat, memo);
    OnceWider(cat, memo1 + SimpleNames(cat, order), base.memo, log1 + order);
    AppendAssoc(log, [ApiMessageClass], order);
  }

  /** At most once per simple name: in one session (`handle(APIGenerateApiJsonTemplateMsg)`
      starts with an empty memo) the message module and the inventory pass never write two
      Python classes with the same simple name, provided simple names are unique. */
  lemma SessionWritesEachSimpleNameOnce(cat: Catalog, scan: seq<ScanEntry>, inventoryScan: seq<ScanEntry>)
    requires BaseClassesPresent(cat) && UniqueSimpleNames(cat) && ScanIn(cat, scan) && ScanIn(cat, inventoryScan)
    ensures var m := MessageModule(cat, {}, scan);
      var inv := InventoryPass(cat, m.memo, inventoryScan);
      LogIn(cat, m.log + inv.log) && NoDup(SimpleNameList(cat, m.log + inv.log))
  {
    var base := BaseSection(cat, {});
    assert Once(cat, {}, []);
    BaseSectionOnce(cat, {}, []);
    assert [] + base.log == base.log;
    MessagePassOnce(cat, base.memo, scan, base.log);
    var m := MessageModule(cat, {}, scan);
    InventoryPassOnce(cat, m.memo, inventoryScan, m.log);
  }

  /** The memo is keyed by simple name: a class whose simple name is memoised by the time the
      scan reaches it is skipped and collects no name. That covers a class memoised before the
      pass, one with the simple name of another class, and one the pass already wrote as the
      superclass of a class met earlier in the scan. */
  lemma MemoisedNameSkipped(cat: Catalog, memo: set<string>, scan: seq<ScanEntry>, q: string)
    requires WellFormed(cat) && ScanIn(cat, scan) && q in cat
    requires cat[q].simpleName in MessagePass(cat, memo, scan).memo
    ensures ScanIn(cat, scan + [Loaded(q)])
    ensures MessagePass(cat, memo, scan + [Loaded(q)]) == MessagePass(cat, memo, scan)
  {
    var scan' := scan + [Loaded(q)];
    assert scan'[..|scan|] == scan;
  }

  /** A class the pass writes as the superclass of a class met earlier is memoised from then
      on, so `MemoisedNameSkipped` applies to it wherever it comes later in the scan. */
  lemma WrittenParentMemoised(cat: Catalog, memo: set<string>, scan: seq<ScanEntry>, i: nat, k: nat)
    requires WellFormed(cat) && ScanIn(cat, scan) && i < |scan| && ScanIn(cat, scan[..i])
    requires scan[i].Loaded? && !SkippedByMessagePass(cat[scan[i].name]) &&
             cat[scan[i].name].simpleName !in MessagePass(cat, memo, scan[..i]).memo
    requires k < |EmitOrder(cat, MessagePass(cat, memo, scan[..i]).memo, scan[i].name)|
    ensures ScanIn(cat, scan[..i + 1])
    ensures var q := EmitOrder(cat, MessagePass(cat, memo, scan[..i]).memo, scan[i].name)[k];
      q in cat && cat[q].simpleName in MessagePass(cat, memo, scan).memo
  {
    var order := EmitOrder(cat, MessagePass(cat, memo, scan[..i]).memo, scan[i].name);
    MessagePassEmit(cat, memo, scan, i);
    SimpleNamesIn(cat, order);
    assert SimpleNameList(cat, order)[k] == cat[order[k]].simpleName;
    MemoGrowsFrom(cat, memo, scan, i + 1);
  }

  /** The memo after a prefix of the scan is contained in the memo after the whole scan. */
  lemma {:induction false} MemoGrowsFrom(cat: Catalog, memo: set<string>, scan: seq<ScanEntry>, n: nat)
    requires WellFormed(cat) && ScanIn(cat, scan) && n <= |scan|
    ensures ScanIn(cat, scan[..n])
    ensures MessagePass(cat, memo, scan[..n]).memo <= MessagePass(cat, memo, scan).memo
    decreases |scan| - n
  {
    ScanInPrefix(cat, scan, n);
    if n < |scan| {
      MemoGrowsFrom(cat, memo, scan, n + 1);
      MemoStep(cat, memo, scan, n);
    } else {
      assert scan[..n] == scan;
    }
  }

  /** One scan entry only adds to the memo. */
  lemma MemoStep(cat: Catalog, memo: set<string>, scan: seq<ScanEntry>, n: nat)
    requires WellFormed(cat) && ScanIn(cat, scan) && n < |scan|
    ensures ScanIn(cat, scan[..n]) && ScanIn(cat, scan[..n + 1])
    ensures MessagePass(cat, memo, scan[..n]).memo <= MessagePass(cat, memo, scan[..n + 1]).memo
  {
    ScanInPrefix(cat, scan, n);
    ScanInPrefix(cat, scan, n + 1);
    var s := MessagePass(cat, memo, scan[..n]);
    if scan[n].Loaded? && !SkippedByMessagePass(cat[scan[n].name]) && cat[scan[n].name].simpleName !in s.memo {
      MessagePassEmit(cat, memo, scan, n);
    } else {
      MessagePassSkip(cat, memo, scan, n);
    }
  }

  /** Every collected name is memoised, and no name is collected twice. */
  lemma {:induction false} MessagePassNamesNoDup(cat: Catalog, memo: set<string>, scan: seq<ScanEntry>)
    requires WellFormed(cat) && ScanIn(cat, scan)
    ensures var p := MessagePass(cat, memo, scan);
      NoDup(p.names) && forall i :: 0 <= i < |p.names| ==> p.names[i] in p.memo
  {
    if scan != [] {
      var n := |scan| - 1;
      ScanInPrefix(cat, scan, n);
      MessagePassNamesNoDup(cat, memo, scan[..n]);
      var s, e := MessagePass(cat, memo, scan[..n]), scan[n];
      if e.Loaded? && !SkippedByMessagePass(cat[e.name]) && cat[e.name].simpleName !in s.memo {
        var order := EmitOrder(cat, s.memo, e.name);
        SimpleNamesIn(cat, order);
        assert SimpleNameList(cat, order)[|order| - 1] == cat[e.name].simpleName;
        NoDupConcat(s.names, [cat[e.name].simpleName]);
        var p := MessagePass(cat, memo, scan);
        forall i | 0 <= i < |p.names| ensures p.names[i] in p.memo {
          if i < |s.names| {
            assert p.names[i] == s.names[i];
          }
        }
      }
    }
  }

  /** `api_names` lists no name twice; it holds exactly the names the message pass collected
      other than the simple names of the four base classes. */
  lemma MessageModuleNames(cat: Catalog, memo: set<string>, scan: seq<ScanEntry>)
    requires BaseClassesPresent(cat) && ScanIn(cat, scan)
    ensures var pass := MessagePass(cat, BaseSection(cat, memo).memo, scan);
      var names := MessageModule(cat, memo, scan).names;
      NoDup(names) &&
      forall n :: n in names <==>
        (n in pass.names && n != cat[ApiMessageClass].simpleName && n != cat[ApiListMessageClass].simpleName &&
         n != cat[ApiDeleteMessageClass].simpleName && n != cat[ApiSearchMessageClass].simpleName)
  {
    var pass := MessagePass(cat, BaseSection(cat, memo).memo, scan);
    MessagePassNamesNoDup(cat, BaseSection(cat, memo).memo, scan);
    PruneBaseNamesFacts(cat, pass.names);
  }

  /** `PruneBaseNames` keeps a list without duplicates free of them, and removes exactly the
      four base simple names. */
  lemma PruneBaseNamesFacts(cat: Catalog, names: seq<string>)
    requires BaseClassesPresent(cat) && NoDup(names)
    ensures var r := PruneBaseNames(cat, names);
      NoDup(r) &&
      forall n :: n in r <==>
        (n in names && n != cat[ApiMessageClass].simpleName && n != cat[ApiListMessageClass].simpleName &&
         n != cat[ApiDeleteMessageClass].simpleName && n != cat[ApiSearchMessageClass].simpleName)
  {
    var n1 := RemoveFirst(names, cat[ApiMessageClass].simpleName);
    RemoveFirstNoDup(names, cat[ApiMessageClass].simpleName);
    var n2 := RemoveFirst(n1, cat[ApiListMessageClass].simpleName);
    RemoveFirstNoDup(n1, cat[ApiListMessageClass].simpleName);
    var n3 := RemoveFirst(n2, cat[ApiDeleteMessageClass].simpleName);
    RemoveFirstNoDup(n2, cat[ApiDeleteMessageClass].simpleName);
    RemoveFirstNoDup(n3, cat[ApiSearchMessageClass].simpleName);
  }

  /** The memo only grows during the message pass. */
  lemma {:induction false} MemoGrows(cat: Catalog, memo: set<string>, scan: seq<ScanEntry>)
    requires WellFormed(cat) && ScanIn(cat, scan)
    ensures memo <= MessagePass(cat, memo, scan).memo
  {
    if scan != [] {
      ScanInPrefix(cat, scan, |scan| - 1);
      MemoGrows(cat, memo, scan[..|scan| - 1]);
    }
  }

  /** The message pass, having gone through `done`, writes `e` and collects its simple name:
      it loaded, is neither a base class nor a search, list, get or abstract class, and its
      simple name is not yet memoised. */
  ghost predicate Writes(cat: Catalog, memo: set<string>, done: seq<ScanEntry>, e: ScanEntry)
    requires WellFormed(cat) && ScanIn(cat, done + [e])
  {
    assert (done + [e])[..|done|] == done;
    ScanInPrefix(cat, done + [e], |done|);
    assert (done + [e])[|done|] == e;
    e.Loaded? && !SkippedByMessagePass(cat[e.name]) && cat[e.name].simpleName !in MessagePass(cat, memo, done).memo
  }

  /** The names the message pass collects are exactly the simple names of the entries it
      writes. */
  lemma {:induction false} MessagePassNames(cat: Catalog, memo: set<string>, scan: seq<ScanEntry>, n: string)
    requires WellFormed(cat) && ScanIn(cat, scan)
    ensures n in MessagePass(cat, memo, scan).names <==>
      exists i :: 0 <= i < |scan| && ScanIn(cat, scan[..i] + [scan[i]]) && Writes(cat, memo, scan[..i], scan[i]) &&
        cat[scan[i].name].simpleName == n
  {
    if scan != [] {
      var k := |scan| - 1;
      var p := scan[..k];
      ScanInPrefix(cat, scan, k);
      MessagePassNames(cat, memo, p, n);
      NamesStep(cat, memo, scan);
      forall i | 0 <= i < k
        ensures scan[..i] == p[..i] && scan[i] == p[i]
      {
      }
    }
  }

  /** The last entry adds its simple name exactly when it is written. */
  lemma NamesStep(cat: Catalog, memo: set<string>, scan: seq<ScanEntry>)
    requires WellFormed(cat) && ScanIn(cat, scan) && scan != []
    ensures var k := |scan| - 1;
      scan[..k] + [scan[k]] == scan && ScanIn(cat, scan[..k]) &&
      MessagePass(cat, memo, scan).names ==
        MessagePass(cat, memo, scan[..k]).names +
        (if Writes(cat, memo, scan[..k], scan[k]) then [cat[scan[k].name].simpleName] else [])
  {
    ScanInPrefix(cat, scan, |scan| - 1);
    assert scan[..|scan| - 1] + [scan[|scan| - 1]] == scan;
  }
}
