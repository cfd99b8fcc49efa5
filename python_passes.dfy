/** What the Python binding generator writes, as functions of the catalog, the memo of simple
    names already generated and the class-path scan. The class in `PythonGenerator` is proved
    to write exactly this. */
module PythonPasses {
  import opened Wrappers
  import opened Text
  import opened Catalog
  import opened PythonText
  import opened Emission

  /** The two recursive emitters. */
  datatype Binding = MessageBinding | InventoryBinding

  function ClassPieces(b: Binding, cat: Catalog, q: string): seq<string>
    requires WellFormed(cat) && q in cat
  {
    match b
    case MessageBinding => MessageClassPieces(cat[q], ParentSimpleName(cat, q))
    case InventoryBinding => InventoryClassPieces(cat[q], ParentSimpleName(cat, q))
  }

  /** The classes of `order` written one after another. */
  function ClassTexts(b: Binding, cat: Catalog, order: seq<string>): seq<string>
    requires WellFormed(cat) && forall i :: 0 <= i < |order| ==> order[i] in cat
  {
    if order == [] then [] else ClassTexts(b, cat, order[..|order| - 1]) + ClassPieces(b, cat, order[|order| - 1])
  }

  lemma ClassTextsAppend(b: Binding, cat: Catalog, order: seq<string>, q: string)
    requires WellFormed(cat) && q in cat && forall i :: 0 <= i < |order| ==> order[i] in cat
    ensures ClassTexts(b, cat, order + [q]) == ClassTexts(b, cat, order) + ClassPieces(b, cat, q)
  {
    assert (order + [q])[..|order|] == order;
  }

  /** `ClassPieces` as a function of the class name. */
  function PiecesOf(b: Binding, cat: Catalog): string --> seq<string>
    requires WellFormed(cat)
  {
    q requires q in cat => ClassPieces(b, cat, q)
  }

  /** `ClassTexts` is `ClassPieces` mapped over the classes and concatenated. */
  lemma {:induction false} ClassTextsConcatMap(b: Binding, cat: Catalog, order: seq<string>)
    requires WellFormed(cat) && forall i :: 0 <= i < |order| ==> order[i] in cat
    ensures forall i :: 0 <= i < |order| ==> PiecesOf(b, cat).requires(order[i])
    ensures ClassTexts(b, cat, order) == ConcatMap(PiecesOf(b, cat), order)
  {
    if order != [] {
      ClassTextsConcatMap(b, cat, order[..|order| - 1]);
    }
  }

  /** What one recursive emitter call adds, from what its superclass call and its own class add. */
  lemma EmitStep(b: Binding, cat: Catalog, memo: set<string>, q: string, parentText: seq<string>, own: seq<string>)
    requires WellFormed(cat) && q in cat
    requires parentText == ClassTexts(b, cat, Before(cat, memo, q)) && own == ClassPieces(b, cat, q)
    ensures parentText + own == ClassTexts(b, cat, EmitOrder(cat, memo, q))
    ensures memo + SimpleNames(cat, Before(cat, memo, q)) + {cat[q].simpleName} == memo + SimpleNames(cat, EmitOrder(cat, memo, q))
    ensures EmitOrder(cat, memo, q) == Before(cat, memo, q) + [q]
  {
    EmitOrderStep(cat, memo, q);
    EmitStepText(b, cat, Before(cat, memo, q), q);
    EmitStepMemo(cat, memo, Before(cat, memo, q), q);
  }

  lemma EmitStepText(b: Binding, cat: Catalog, before: seq<string>, q: string)
    requires WellFormed(cat) && q in cat && forall i :: 0 <= i < |before| ==> before[i] in cat
    ensures ClassTexts(b, cat, before) + ClassPieces(b, cat, q) == ClassTexts(b, cat, before + [q])
  {
    ClassTextsAppend(b, cat, before, q);
  }

  lemma EmitStepMemo(cat: Catalog, memo: set<string>, before: seq<string>, q: string)
    requires q in cat && forall i :: 0 <= i < |before| ==> before[i] in cat
    ensures memo + SimpleNames(cat, before) + {cat[q].simpleName} == memo + SimpleNames(cat, before + [q])
  {
    SimpleNamesAppend(cat, before, q);
    assert memo + SimpleNames(cat, before) + {cat[q].simpleName} == memo + (SimpleNames(cat, before) + {cat[q].simpleName});
  }

  /** `generateSimplePythonClass`: a class whose constructor sets every declared field to `None`. */
  function SimpleClassPieces(c: TypeDesc): seq<string> {
    [Line(0, "class " + c.simpleName + "(object):"), Line(4, "def __init__(self):")] + NoneInits(c.fields) + ["\n\n"]
  }

  /** The constructor of a simple class declares each of the class's fields, after its header. */
  lemma SimpleClassDeclaresFields(c: TypeDesc, i: nat)
    requires i < |c.fields|
    ensures |SimpleClassPieces(c)| == |c.fields| + 3
    ensures SimpleClassPieces(c)[2 + i] == InitNone(c.fields[i].name)
  {
    NoneInitsAt(c.fields, i);
  }

  lemma {:induction false} NoneInitsAt(fs: seq<FieldDesc>, i: nat)
    requires i < |fs|
    ensures |NoneInits(fs)| == |fs| && NoneInits(fs)[i] == InitNone(fs[i].name)
  {
    NoneInitsLength(fs);
    if i < |fs| - 1 {
      assert fs[..|fs| - 1][i] == fs[i];
      NoneInitsAt(fs[..|fs| - 1], i);
    }
  }

  lemma {:induction false} NoneInitsLength(fs: seq<FieldDesc>)
    ensures |NoneInits(fs)| == |fs|
  {
    if fs != [] {
      NoneInitsLength(fs[..|fs| - 1]);
    }
  }

  /** `generateSessionPythonClass`. */
  const SessionClassPieces: seq<string> :=
    [Line(0, "class Session(object):"), Line(4, "def __init__(self):"), Line(8, "self.uuid = None"), "\n\n"]

  /** The classes the base section needs from the catalog. */
  ghost predicate BaseClassesPresent(cat: Catalog) {
    WellFormed(cat) &&
    ApiMessageClass in cat && ApiListMessageClass in cat && ApiDeleteMessageClass in cat &&
    ApiSearchMessageClass in cat && ErrorCodeClass in cat && NolTripleClass in cat && NovTripleClass in cat
  }

  /** The head of `generateBaseApiMessagePythonClass`: `APIMessage` itself, with `timeout`
      and its declared fields. */
  function ApiMessageClassPieces(c: TypeDesc): seq<string> {
    [Line(0, "class " + c.simpleName + "(object):"), Line(4, "def __init__(self):"),
     Line(8, "super(" + c.simpleName + ", self).__init__()"), Line(8, "self.timeout = None")]
    + NoneInits(c.fields) + ["\n\n"]
  }

  /** What a pass has written so far: the text, the memo, the API names it collected and (as
      a record for the proofs) the qualified names of the memoised classes it wrote. */
  datatype PassState = PassState(text: seq<string>, memo: set<string>, names: seq<string>, log: seq<string>)

  ghost predicate LogIn(cat: Catalog, log: seq<string>) {
    forall i :: 0 <= i < |log| ==> log[i] in cat
  }

  /** `generateBaseApiMessagePythonClass`: `APIMessage`, then `APIDeleteMessage` through the
      recursive emitter (marked once more afterwards), then the two search-condition classes. */
  function BaseSection(cat: Catalog, memo: set<string>): (r: PassState)
    requires BaseClassesPresent(cat)
    ensures LogIn(cat, r.log)
  {
    var memo1 := memo + {cat[ApiMessageClass].simpleName};
    var order := EmitOrder(cat, memo1, ApiDeleteMessageClass);
    PassState(
      ApiMessageClassPieces(cat[ApiMessageClass]) + ClassTexts(MessageBinding, cat, order)
        + SimpleClassPieces(cat[NolTripleClass]) + SimpleClassPieces(cat[NovTripleClass]),
      memo1 + SimpleNames(cat, order) + {cat[ApiDeleteMessageClass].simpleName},
      [],
      [ApiMessageClass] + order)
  }

  /** The four base classes the message pass skips by identity. */
  predicate IsBaseMessageClass(q: string) {
    q == ApiMessageClass || q == ApiListMessageClass || q == ApiDeleteMessageClass || q == ApiSearchMessageClass
  }

  /** The classes the message pass skips before looking at the memo. */
  predicate SkippedByMessagePass(c: TypeDesc) {
    IsBaseMessageClass(c.name) || c.isSearch || c.isList || c.isGet || c.isAbstract
  }

  /** The state after one emitter call on `q`: the classes `EmitOrder` names are written,
      marked and logged. */
  function Emit(b: Binding, cat: Catalog, s: PassState, q: string): (r: PassState)
    requires WellFormed(cat) && q in cat && LogIn(cat, s.log)
    ensures LogIn(cat, r.log)
  {
    var order := EmitOrder(cat, s.memo, q);
    PassState(s.text + ClassTexts(b, cat, order), s.memo + SimpleNames(cat, order), s.names, s.log + order)
  }

  /** The scan loop of `generateApiMessagePythonClass`. */
  function MessagePass(cat: Catalog, memo: set<string>, scan: seq<ScanEntry>): (r: PassState)
    requires WellFormed(cat) && ScanIn(cat, scan)
    ensures LogIn(cat, r.log)
  {
    if scan == [] then PassState([], memo, [], [])
    else
      var s := MessagePass(cat, memo, scan[..|scan| - 1]);
      var e := scan[|scan| - 1];
      if e.LoadFailed? || SkippedByMessagePass(cat[e.name]) || cat[e.name].simpleName in s.memo then s
      else
        var t := Emit(MessageBinding, cat, s, e.name);
        PassState(t.text, t.memo, s.names + [cat[e.name].simpleName], t.log)
  }

  /** The scan loop of `generateInventoryPythonClass`; a class that fails to load is skipped. */
  function InventoryPass(cat: Catalog, memo: set<string>, scan: seq<ScanEntry>): (r: PassState)
    requires WellFormed(cat) && ScanIn(cat, scan)
    ensures LogIn(cat, r.log) && r.names == []
  {
    if scan == [] then PassState([], memo, [], [])
    else
      var s := InventoryPass(cat, memo, scan[..|scan| - 1]);
      var e := scan[|scan| - 1];
      if e.LoadFailed? || cat[e.name].simpleName in s.memo then s
      else Emit(InventoryBinding, cat, s, e.name)
  }

  /** A scan entry the message pass skips leaves its state unchanged. */
  lemma MessagePassSkip(cat: Catalog, memo: set<string>, scan: seq<ScanEntry>, i: nat)
    requires WellFormed(cat) && ScanIn(cat, scan) && i < |scan|
    requires ScanIn(cat, scan[..i])
    requires scan[i].LoadFailed? || SkippedByMessagePass(cat[scan[i].name]) ||
             cat[scan[i].name].simpleName in MessagePass(cat, memo, scan[..i]).memo
    ensures ScanIn(cat, scan[..i + 1])
    ensures MessagePass(cat, memo, scan[..i + 1]) == MessagePass(cat, memo, scan[..i])
  {
    ScanInPrefix(cat, scan, i + 1);
    assert scan[..i + 1][..i] == scan[..i];
  }

  /** A scan entry the message pass writes adds its emission order and its simple name. */
  lemma MessagePassEmit(cat: Catalog, memo: set<string>, scan: seq<ScanEntry>, i: nat)
    requires WellFormed(cat) && ScanIn(cat, scan) && i < |scan|
    requires ScanIn(cat, scan[..i])
    requires scan[i].Loaded? && !SkippedByMessagePass(cat[scan[i].name]) &&
             cat[scan[i].name].simpleName !in MessagePass(cat, memo, scan[..i]).memo
    ensures ScanIn(cat, scan[..i + 1])
    ensures var s, q := MessagePass(cat, memo, scan[..i]), scan[i].name;
      var order := EmitOrder(cat, s.memo, q);
      MessagePass(cat, memo, scan[..i + 1]) ==
        PassState(s.text + ClassTexts(MessageBinding, cat, order), s.memo + SimpleNames(cat, order),
                  s.names + [cat[q].simpleName], s.log + order)
  {
    ScanInPrefix(cat, scan, i + 1);
    assert scan[..i + 1][..i] == scan[..i];
  }

  /** A scan entry the inventory pass skips leaves the state unchanged. */
  lemma InventoryPassSkip(cat: Catalog, memo: set<string>, scan: seq<ScanEntry>, i: nat)
    requires WellFormed(cat) && ScanIn(cat, scan) && i < |scan|
    requires ScanIn(cat, scan[..i])
    requires scan[i].LoadFailed? || cat[scan[i].name].simpleName in InventoryPass(cat, memo, scan[..i]).memo
    ensures ScanIn(cat, scan[..i + 1])
    ensures InventoryPass(cat, memo, scan[..i + 1]) == InventoryPass(cat, memo, scan[..i])
  {
    ScanInPrefix(cat, scan, i + 1);
    assert scan[..i + 1][..i] == scan[..i];
  }

  /** A scan entry the inventory pass writes adds its emission order. */
  lemma InventoryPassEmit(cat: Catalog, memo: set<string>, scan: seq<ScanEntry>, i: nat)
    requires WellFormed(cat) && ScanIn(cat, scan) && i < |scan|
    requires ScanIn(cat, scan[..i])
    requires scan[i].Loaded? && cat[scan[i].name].simpleName !in InventoryPass(cat, memo, scan[..i]).memo
    ensures ScanIn(cat, scan[..i + 1])
    ensures var s, q := InventoryPass(cat, memo, scan[..i]), scan[i].name;
      var order := EmitOrder(cat, s.memo, q);
      InventoryPass(cat, memo, scan[..i + 1]) ==
        PassState(s.text + ClassTexts(InventoryBinding, cat, order), s.memo + SimpleNames(cat, order),
                  s.names, s.log + order)
  {
    ScanInPrefix(cat, scan, i + 1);
    assert scan[..i + 1][..i] == scan[..i];
  }

  /** `apiNames.remove(...)` for the four base classes, in the source's order. */
  function PruneBaseNames(cat: Catalog, names: seq<string>): seq<string>
    requires BaseClassesPresent(cat)
  {
    var n1 := RemoveFirst(names, cat[ApiMessageClass].simpleName);
    var n2 := RemoveFirst(n1, cat[ApiListMessageClass].simpleName);
    var n3 := RemoveFirst(n2, cat[ApiDeleteMessageClass].simpleName);
    RemoveFirst(n3, cat[ApiSearchMessageClass].simpleName)
  }

  /** One line of the `api_names` list. */
  function ApiNameLine(name: string): string {
    Line(4, "'" + name + "',")
  }

  function ApiNameLines(names: seq<string>): seq<string> {
    if names == [] then [] else ApiNameLines(names[..|names| - 1]) + [ApiNameLine(names[|names| - 1])]
  }

  /** `generateApiNameList`. */
  function ApiNameListPieces(names: seq<string>): seq<string> {
    ["\napi_names = ["] + ApiNameLines(names) + ["\n]\n"]
  }

  /** `generateApiMessagePythonClass` as a whole: base section, scan, pruned name list. */
  function MessageModule(cat: Catalog, memo: set<string>, scan: seq<ScanEntry>): (r: PassState)
    requires BaseClassesPresent(cat) && ScanIn(cat, scan)
    ensures LogIn(cat, r.log)
  {
    var base := BaseSection(cat, memo);
    var pass := MessagePass(cat, base.memo, scan);
    var names := PruneBaseNames(cat, pass.names);
    PassState(SessionClassPieces + SimpleClassPieces(cat[ErrorCodeClass]) + base.text + pass.text + ApiNameListPieces(names),
              pass.memo, names, base.log + pass.log)
  }
}
