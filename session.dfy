/** `handle(APIGenerateApiJsonTemplateMsg)`: the `api_names` manifest of `api_messages.py` and
    the session that writes `inventory.py` with a fresh memo. */
module JsonTemplateSession {
  import opened Wrappers
  import opened Text
  import opened Catalog
  import opened PythonText
  import opened PythonPasses
  import opened PythonGenerator
  import opened GlobalConfigConstants

  /** `getBasePackageNames()`, or `org.zstack` when it is missing or empty. */
  function BasePackages(given: Option<seq<string>>): (r: seq<string>)
    ensures r != []
    ensures given.Some? && given.value != [] ==> r == given.value
    ensures given.None? || given.value == [] ==> r == ["org.zstack"]
  {
    if given.None? || given.value == [] then ["org.zstack"] else given.value
  }

  /** The scans of the json-template and Groovy handlers run over `BasePackages(given)`: with no
      package given, what the scanner finds under `org.zstack`; otherwise the given packages'
      candidates, package by package. */
  lemma BasePackagesScan(found: string -> seq<ScanEntry>, given: Option<seq<string>>, e: ScanEntry)
    ensures given.None? || given.value == [] ==> PackageScan(found, BasePackages(given)) == found("org.zstack")
    ensures given.Some? && given.value != [] ==> PackageScan(found, BasePackages(given)) == PackageScan(found, given.value)
    ensures e in PackageScan(found, BasePackages(given)) <==>
      exists i :: 0 <= i < |BasePackages(given)| && e in found(BasePackages(given)[i])
  {
    var pkgs := BasePackages(given);
    if given.None? || given.value == [] {
      assert pkgs[..0] == [];
      assert PackageScan(found, pkgs) == [] + found("org.zstack");
    }
    PackageScanMembers(found, pkgs, e);
  }

  /** The manifest lists an API message unless it is a search, get or list message. */
  predicate InManifest(c: TypeDesc) {
    c.isApiMessage && !(c.isSearch || c.isGet || c.isList)
  }

  /** `String.format("%s'%s',\n", whiteSpace(4), clazz.getName())`. */
  function ManifestLine(q: string): string {
    WhiteSpace(4) + "'" + q + "',\n"
  }

  /** Different classes get different lines. */
  lemma ManifestLineInjective(q: string, r: string)
    requires ManifestLine(q) == ManifestLine(r)
    ensures q == r
  {
    var a, b := ManifestLine(q), ManifestLine(r);
    assert a[5..|a| - 3] == q;
    assert b[5..|b| - 3] == r;
  }

  /** The lines of the manifest, in scan order: a class that fails to load or whose json
      template cannot be dumped or written (`dumpFails`) is skipped with a warning. */
  function ManifestLines(cat: Catalog, scan: seq<ScanEntry>, dumpFails: set<string>): seq<string>
    requires ScanIn(cat, scan)
  {
    if scan == [] then []
    else
      var e := scan[|scan| - 1];
      ManifestLines(cat, scan[..|scan| - 1], dumpFails) +
      (if e.Loaded? && e.name !in dumpFails && InManifest(cat[e.name]) then [ManifestLine(e.name)] else [])
  }

  /** A class is listed exactly when it was scanned, loaded, dumped and is an API message that
      is not a search, get or list message. */
  lemma {:induction false} ManifestMembers(cat: Catalog, scan: seq<ScanEntry>, dumpFails: set<string>, q: string)
    requires ScanIn(cat, scan)
    ensures ManifestLine(q) in ManifestLines(cat, scan, dumpFails) <==>
      Loaded(q) in scan && q !in dumpFails && q in cat && InManifest(cat[q])
  {
    if scan != [] {
      var k := |scan| - 1;
      var p, e := scan[..k], scan[k];
      assert scan == p + [e];
      ScanInPrefix(cat, scan, k);
      ManifestMembers(cat, p, dumpFails, q);
      if e.Loaded? && ManifestLine(q) == ManifestLine(e.name) {
        ManifestLineInjective(q, e.name);
      }
      if Loaded(q) in scan && Loaded(q) !in p {
        assert e == Loaded(q);
      }
    }
  }

  /** The text of `api_messages.py`. */
  function ManifestPieces(cat: Catalog, scan: seq<ScanEntry>, dumpFails: set<string>): seq<string>
    requires ScanIn(cat, scan)
  {
    ["api_names = [\n"] + ManifestLines(cat, scan, dumpFails) + ["]\n"]
  }

  /** The scan loop of the json-template handler, as it builds `apiNameBuilder`; `scan` is the
      candidates of every base package, one package after another. */
  method BuildManifest(cat: Catalog, scan: seq<ScanEntry>, dumpFails: set<string>) returns (text: string)
    requires ScanIn(cat, scan)
    ensures text == Concat(ManifestPieces(cat, scan, dumpFails))
  {
    var sb := new TextBuffer();
    sb.Append("api_names = [\n");
    var i := 0;
    while i < |scan|
      invariant 0 <= i <= |scan| && ScanIn(cat, scan[..i])
      invariant sb.pieces == ["api_names = [\n"] + ManifestLines(cat, scan[..i], dumpFails)
    {
      ScanInPrefix(cat, scan, i + 1);
      assert scan[..i + 1][..i] == scan[..i];
      var e := scan[i];
      if e.Loaded? && e.name !in dumpFails {
        var c := cat[e.name];
        if c.isApiMessage && !(c.isSearch || c.isGet || c.isList) {
          sb.Append(WhiteSpace(4) + "'" + e.name + "',\n");
        }
      }
      i := i + 1;
    }
    assert scan[..i] == scan;
    sb.Append("]\n");
    text := sb.ToString();
  }

  /** The writers' texts, each after a newline. */
  function WriterPieces(writerTexts: seq<seq<string>>): seq<string> {
    if writerTexts == [] then [] else WriterPieces(writerTexts[..|writerTexts| - 1]) + ["\n"] + writerTexts[|writerTexts| - 1]
  }

  /** The classes written from the catalog: the sentinel classes, the message module and the
      inventory classes, the latter two sharing a memo that starts empty. */
  function BindingClasses(cat: Catalog, scan: seq<ScanEntry>, inventoryScan: seq<ScanEntry>): seq<string>
    requires BaseClassesPresent(cat) && ScanIn(cat, scan) && ScanIn(cat, inventoryScan)
  {
    var m := MessageModule(cat, {}, scan);
    MandatoryFieldClassPieces() + m.text + InventoryPass(cat, m.memo, inventoryScan).text
  }

  /** The text of `inventory.py`: the classes written from the catalog, the constants (written
      by a generator that is not part of this model), the global-config classes in the entry
      order `order`, and the writers' texts. */
  function InventoryFile(cat: Catalog, scan: seq<ScanEntry>, inventoryScan: seq<ScanEntry>, constants: seq<string>,
                         configs: seq<GlobalConfig>, order: seq<string>, writerTexts: seq<seq<string>>): seq<string>
    requires BaseClassesPresent(cat) && ScanIn(cat, scan) && ScanIn(cat, inventoryScan)
    requires forall i :: 0 <= i < |order| ==> order[i] in Grouped(configs)
  {
    BindingClasses(cat, scan, inventoryScan) + constants + ["\n"] + CategoriesPieces(Grouped(configs), order) +
    WriterPieces(writerTexts)
  }

  /** The Python half of the handler: the memo starts empty, every part is appended in the
      source's order, and the memo is dropped at the end. */
  method HandleGenerateApiJsonTemplate(gen: PythonBindingGenerator, cat: Catalog, scan: seq<ScanEntry>,
                                       inventoryScan: seq<ScanEntry>, constants: seq<string>,
                                       configs: seq<GlobalConfig>, writerTexts: seq<seq<string>>)
    returns (python: string, ghost order: seq<string>)
    requires BaseClassesPresent(cat) && ScanIn(cat, scan) && ScanIn(cat, inventoryScan)
    modifies gen
    ensures EntryOrder(Grouped(configs), order)
    ensures forall i :: 0 <= i < |order| ==> order[i] in Grouped(configs)
    ensures python == Concat(InventoryFile(cat, scan, inventoryScan, constants, configs, order, writerTexts))
    ensures gen.generated == {}
  {
    gen.generated := {};
    var pysb := new TextBuffer();
    WriteBindingClasses(gen, pysb, cat, scan, inventoryScan);
    ghost var head := BindingClasses(cat, scan, inventoryScan);
    assert pysb.pieces == head;
    pysb.AppendAll(constants);
    order := GenerateGlobalConfigPythonConstant(pysb, configs);
    ghost var g := Grouped(configs);
    assert forall i :: 0 <= i < |order| ==> order[i] in g by {
      forall i | 0 <= i < |order| ensures order[i] in g {
        assert order[i] in order;
      }
    }
    assert pysb.pieces == head + constants + ["\n"] + CategoriesPieces(g, order);
    AppendWriters(pysb, writerTexts);
    python := pysb.ToString();
    gen.generated := {};
  }

  /** `generateMandoryFieldClass`, `generateApiMessagePythonClass` and
      `generateInventoryPythonClass`, starting from an empty memo. */
  method WriteBindingClasses(gen: PythonBindingGenerator, pysb: TextBuffer, cat: Catalog, scan: seq<ScanEntry>,
                             inventoryScan: seq<ScanEntry>)
    requires BaseClassesPresent(cat) && ScanIn(cat, scan) && ScanIn(cat, inventoryScan)
    requires gen.generated == {}
    modifies gen, pysb
    ensures pysb.pieces == old(pysb.pieces) + BindingClasses(cat, scan, inventoryScan)
  {
    ghost var x := pysb.pieces;
    GenerateMandatoryFieldClass(pysb);
    gen.GenerateApiMessagePythonClass(pysb, cat, scan);
    gen.GenerateInventoryPythonClass(pysb, cat, inventoryScan);
    ghost var m := MessageModule(cat, {}, scan);
    ghost var a, b, c := MandatoryFieldClassPieces(), m.text, InventoryPass(cat, m.memo, inventoryScan).text;
    assert pysb.pieces == x + a + b + c;
    AppendAssoc(x + a, b, c);
    AppendAssoc(x, a, b + c);
    AppendAssoc(a, b, c);
  }

  /** The loop over the binding writers. */
  method AppendWriters(sb: TextBuffer, writerTexts: seq<seq<string>>)
    modifies sb
    ensures sb.pieces == old(sb.pieces) + WriterPieces(writerTexts)
  {
    var i := 0;
    while i < |writerTexts|
      invariant 0 <= i <= |writerTexts|
      invariant sb.pieces == old(sb.pieces) + WriterPieces(writerTexts[..i])
    {
      assert writerTexts[..i + 1][..i] == writerTexts[..i];
      sb.Append("\n");
      sb.AppendAll(writerTexts[i]);
      i := i + 1;
    }
    assert writerTexts[..i] == writerTexts;
  }
}
