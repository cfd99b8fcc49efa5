/** The declarative stand-in for Java reflection: each scanned class becomes a `TypeDesc`
    holding what the generators read from it (superclass, declared fields, modifiers and
    annotations). A catalog maps fully qualified class names to descriptors. */
module Catalog {
  import opened Wrappers
  import opened Text

  /** How the Python message emitter classifies a field's declared type: assignable to
      `Collection`, else assignable to `Map`, else anything else. */
  datatype FieldKind = Scalar | Collection | MapKind

  /** The `@APIParam` annotation; its `required` element defaults to true. */
  datatype ApiParam = ApiParam(required: bool, validValues: seq<string>)

  /** One declared field (`Class.getDeclaredFields()`), with the annotations the emitters read. */
  datatype FieldDesc = FieldDesc(
    name: string,
    kind: FieldKind,
    param: Option<ApiParam>,  // @APIParam, if present
    noSee: bool,              // @APINoSee
    isStatic: bool,           // static modifier
    column: bool,             // @Column
    noView: bool)             // @NoView
  {
    /** `at != null && at.required()` */
    predicate Required() {
      param.Some? && param.value.required
    }

    /** `at.validValues()`, or none when the field carries no `@APIParam`. */
    function ValidValues(): seq<string> {
      if param.Some? then param.value.validValues else []
    }
  }

  /** The `@EO` annotation of an entity class: the simple name of its `EOClazz`, its
      `softDeletedColumn` and its `needView` flag. */
  datatype EoAnnotation = EoAnnotation(eoClass: string, softDeletedColumn: string, needView: bool)

  /** One class. `parent` is the qualified name of its superclass, `None` when that is `Object`;
      `depth` is the number of its superclasses other than `Object`. The `is...` flags say
      whether the class is assignable to the named framework type. */
  datatype TypeDesc = TypeDesc(
    name: string,          // Class.getName()
    simpleName: string,    // Class.getSimpleName()
    parent: Option<string>,
    depth: nat,
    fields: seq<FieldDesc>,
    isAbstract: bool,
    isStatic: bool,
    isApiMessage: bool,    // APIMessage
    isApiEvent: bool,      // APIEvent
    isSearch: bool,        // APISearchMessage
    isList: bool,          // APIListMessage
    isGet: bool,           // APIGetMessage
    isEntity: bool,        // @Entity
    eo: Option<EoAnnotation>)

  type Catalog = map<string, TypeDesc>

  /** What the class-path scanner yields: a loaded class, or a bean whose `Class.forName` failed. */
  datatype ScanEntry = Loaded(name: string) | LoadFailed(beanClassName: string)

  /** Qualified names of the framework classes the generators single out. */
  const ApiMessageClass := "org.zstack.header.message.APIMessage"
  const ApiListMessageClass := "org.zstack.header.message.APIListMessage"
  const ApiDeleteMessageClass := "org.zstack.header.message.APIDeleteMessage"
  const ApiSearchMessageClass := "org.zstack.header.search.APISearchMessage"
  const ErrorCodeClass := "org.zstack.header.errorcode.ErrorCode"
  const NolTripleClass := "org.zstack.header.search.APISearchMessage$NOLTriple"
  const NovTripleClass := "org.zstack.header.search.APISearchMessage$NOVTriple"

  /** Every descriptor is filed under its own name and its superclass is in the catalog at a
      smaller depth: Java's single inheritance, which makes every parent chain finite. */
  ghost predicate WellFormed(cat: Catalog) {
    forall q :: q in cat ==> cat[q].name == q && ParentLinked(cat, q)
  }

  ghost predicate ParentLinked(cat: Catalog, q: string)
    requires q in cat
  {
    match cat[q].parent
    case None => true
    case Some(p) => p in cat && cat[p].depth < cat[q].depth
  }

  /** No two classes share a simple name (the Python memo is keyed by simple name). */
  ghost predicate UniqueSimpleNames(cat: Catalog) {
    forall a, b :: a in cat && b in cat && cat[a].simpleName == cat[b].simpleName ==> a == b
  }

  /** The class and its superclasses, root first: `Chain(q)[i]` is the superclass of `Chain(q)[i + 1]`. */
  function Chain(cat: Catalog, q: string): (r: seq<string>)
    requires WellFormed(cat) && q in cat
    ensures |r| > 0 && r[|r| - 1] == q
    ensures forall i :: 0 <= i < |r| ==> r[i] in cat
    decreases cat[q].depth
  {
    match cat[q].parent
    case None => [q]
    case Some(p) => Chain(cat, p) + [q]
  }

  /** Along a chain the depth strictly grows, so no class appears twice. */
  lemma {:induction false} ChainIncreasing(cat: Catalog, q: string)
    requires WellFormed(cat) && q in cat
    ensures forall i, j :: 0 <= i < j < |Chain(cat, q)| ==>
      cat[Chain(cat, q)[i]].depth < cat[Chain(cat, q)[j]].depth
    ensures NoDup(Chain(cat, q))
    decreases cat[q].depth
  {
    match cat[q].parent
    case None =>
    case Some(p) =>
      ChainIncreasing(cat, p);
      var c := Chain(cat, q);
      assert c[..|c| - 1] == Chain(cat, p);
      forall i | 0 <= i < |c| - 1 ensures cat[c[i]].depth < cat[q].depth {
        if i < |c| - 2 {
          assert cat[c[i]].depth < cat[c[|c| - 2]].depth;
        }
      }
  }

  /** A chain starts at a root, and each class in it is the superclass of the next. */
  lemma {:induction false} ChainLinked(cat: Catalog, q: string)
    requires WellFormed(cat) && q in cat
    ensures forall i :: 0 < i < |Chain(cat, q)| ==> cat[Chain(cat, q)[i]].parent == Some(Chain(cat, q)[i - 1])
    ensures cat[Chain(cat, q)[0]].parent.None?
    decreases cat[q].depth
  {
    match cat[q].parent
    case None =>
    case Some(p) =>
      ChainLinked(cat, p);
      var c, pc := Chain(cat, q), Chain(cat, p);
      assert c == pc + [q];
      forall i | 0 < i < |c| ensures cat[c[i]].parent == Some(c[i - 1]) {
        if i < |c| - 1 {
          assert c[i] == pc[i] && c[i - 1] == pc[i - 1];
        }
      }
  }

  /** The simple names of some classes, in order. */
  function SimpleNameList(cat: Catalog, qs: seq<string>): (r: seq<string>)
    requires forall i :: 0 <= i < |qs| ==> qs[i] in cat
    ensures |r| == |qs| && forall i :: 0 <= i < |qs| ==> r[i] == cat[qs[i]].simpleName
  {
    if qs == [] then [] else SimpleNameList(cat, qs[..|qs| - 1]) + [cat[qs[|qs| - 1]].simpleName]
  }

  /** The set of simple names of some classes. */
  function SimpleNames(cat: Catalog, qs: seq<string>): set<string>
    requires forall i :: 0 <= i < |qs| ==> qs[i] in cat
  {
    if qs == [] then {} else SimpleNames(cat, qs[..|qs| - 1]) + {cat[qs[|qs| - 1]].simpleName}
  }

  /** The set holds exactly the names of the list. */
  lemma {:induction false} SimpleNamesIn(cat: Catalog, qs: seq<string>)
    requires forall i :: 0 <= i < |qs| ==> qs[i] in cat
    ensures forall n :: n in SimpleNames(cat, qs) <==> n in SimpleNameList(cat, qs)
  {
    if qs != [] {
      SimpleNamesIn(cat, qs[..|qs| - 1]);
    }
  }

  lemma SimpleNamesAppend(cat: Catalog, order: seq<string>, q: string)
    requires q in cat && forall i :: 0 <= i < |order| ==> order[i] in cat
    ensures SimpleNameList(cat, order + [q]) == SimpleNameList(cat, order) + [cat[q].simpleName]
    ensures SimpleNames(cat, order + [q]) == SimpleNames(cat, order) + {cat[q].simpleName}
  {
    assert (order + [q])[..|order|] == order;
  }

  lemma SimpleNamesConcat(cat: Catalog, a: seq<string>, b: seq<string>)
    requires forall i :: 0 <= i < |a| ==> a[i] in cat
    requires forall i :: 0 <= i < |b| ==> b[i] in cat
    ensures SimpleNameList(cat, a + b) == SimpleNameList(cat, a) + SimpleNameList(cat, b)
    ensures SimpleNames(cat, a + b) == SimpleNames(cat, a) + SimpleNames(cat, b)
  {
    var l := SimpleNameList(cat, a + b);
    assert l == SimpleNameList(cat, a) + SimpleNameList(cat, b);
    SimpleNamesIn(cat, a + b);
    SimpleNamesIn(cat, a);
    SimpleNamesIn(cat, b);
  }

  /** Every loaded scan entry names a class of the catalog (`Class.forName` succeeded). */
  ghost predicate ScanIn(cat: Catalog, scan: seq<ScanEntry>) {
    forall i :: 0 <= i < |scan| && scan[i].Loaded? ==> scan[i].name in cat
  }

  lemma ScanInPrefix(cat: Catalog, scan: seq<ScanEntry>, i: nat)
    requires ScanIn(cat, scan) && i <= |scan|
    ensures ScanIn(cat, scan[..i])
  {
    forall j | 0 <= j < i && scan[..i][j].Loaded? ensures scan[..i][j].name in cat {
      assert scan[..i][j] == scan[j];
    }
  }

  /** The candidates of one scanner over several base packages, package by package:
      `for (String pkg : basePkgs) for (BeanDefinition bd : scanner.findCandidateComponents(pkg))`.
      `found(pkg)` is what the scanner yields for one package. */
  function PackageScan(found: string -> seq<ScanEntry>, pkgs: seq<string>): seq<ScanEntry> {
    if pkgs == [] then [] else PackageScan(found, pkgs[..|pkgs| - 1]) + found(pkgs[|pkgs| - 1])
  }

  /** An entry is scanned exactly when one of the packages yields it. */
  lemma {:induction false} PackageScanMembers(found: string -> seq<ScanEntry>, pkgs: seq<string>, e: ScanEntry)
    ensures e in PackageScan(found, pkgs) <==> exists i :: 0 <= i < |pkgs| && e in found(pkgs[i])
  {
    if pkgs != [] {
      var k := |pkgs| - 1;
      PackageScanMembers(found, pkgs[..k], e);
      if exists i :: 0 <= i < k && e in found(pkgs[..k][i]) {
        var i :| 0 <= i < k && e in found(pkgs[..k][i]);
        assert pkgs[..k][i] == pkgs[i];
      }
      if exists i :: 0 <= i < |pkgs| && e in found(pkgs[i]) {
        var i :| 0 <= i < |pkgs| && e in found(pkgs[i]);
        if i < k {
          assert pkgs[..k][i] == pkgs[i];
        }
      }
    }
  }

  /** `FieldUtils.getAllFields(clazz)`: the class's declared fields, then those of each superclass. */
  function AllFields(cat: Catalog, q: string): seq<FieldDesc>
    requires WellFormed(cat) && q in cat
    decreases cat[q].depth
  {
    cat[q].fields +
    match cat[q].parent
    case None => []
    case Some(p) => AllFields(cat, p)
  }
}
