/** The Groovy generator: `classToApiMessageGroovyInformation`, which lists a class's required
    fields, the scan loop and file layout of `generateGroovyClasses`, and the stub emitter
    `classToApiMessageGroovyClass`, which only a commented-out call reaches. */
module Groovy {
  import opened Wrappers
  import opened Text
  import opened Catalog
  import opened Emission

  /** `getSimpleName().replace("\\.", "_").toUpperCase()`. */
  function GroovyConstName(simpleName: string): string {
    Upper(ReplaceBackslashDot(simpleName))
  }

  /** A simple name holds no backslash, so the literal replace does nothing and the constant's
      name is the upper-cased simple name. */
  lemma GroovyConstNameIsUpper(simpleName: string)
    requires '\\' !in simpleName
    ensures GroovyConstName(simpleName) == Upper(simpleName)
  {
    ReplaceBackslashDotIdentity(simpleName);
  }

  function Quoted(name: string): string {
    "'" + name + "'"
  }

  /** The quoted names of the fields whose `@APIParam` says `required`, in field order. */
  function RequiredFieldNames(fs: seq<FieldDesc>): seq<string> {
    if fs == [] then []
    else RequiredFieldNames(fs[..|fs| - 1]) + (if fs[|fs| - 1].Required() then [Quoted(fs[|fs| - 1].name)] else [])
  }

  /** A field is listed exactly when it is required; hidden and static fields are not filtered. */
  lemma {:induction false} RequiredFieldNamesMembers(fs: seq<FieldDesc>, x: string)
    ensures x in RequiredFieldNames(fs) <==> exists i :: 0 <= i < |fs| && fs[i].Required() && x == Quoted(fs[i].name)
  {
    if fs != [] {
      var k := |fs| - 1;
      var tail := if fs[k].Required() then [Quoted(fs[k].name)] else [];
      assert RequiredFieldNames(fs) == RequiredFieldNames(fs[..k]) + tail;
      RequiredFieldNamesMembers(fs[..k], x);
      if x in RequiredFieldNames(fs[..k]) {
        var i :| 0 <= i < k && fs[..k][i].Required() && x == Quoted(fs[..k][i].name);
        assert fs[i] == fs[..k][i];
      }
      if exists i :: 0 <= i < |fs| && fs[i].Required() && x == Quoted(fs[i].name) {
        var i :| 0 <= i < |fs| && fs[i].Required() && x == Quoted(fs[i].name);
        if i < k {
          assert fs[..k][i] == fs[i];
        }
      }
    }
  }

  /** What `classToApiMessageGroovyInformation` appends: nothing for a static class, else a
      `def <NAME> = [name: '<qualified name>', requiredFields: [...]]` entry. */
  function GroovyInfoPieces(cat: Catalog, q: string): seq<string>
    requires WellFormed(cat) && q in cat
  {
    var c := cat[q];
    if c.isStatic then []
    else [Line(4, "def " + GroovyConstName(c.simpleName) + " = [name: '" + c.name + "',"),
          "requiredFields: [" + Join(RequiredFieldNames(AllFields(cat, q)), ",") + "]]\n"]
  }

  /** A static class leaves no entry; any other class's entry names the class and lists, among
      all its fields and its superclasses' fields, exactly the required ones. */
  lemma GroovyInfoLists(cat: Catalog, q: string, x: string)
    requires WellFormed(cat) && q in cat
    ensures var p, fs := GroovyInfoPieces(cat, q), AllFields(cat, q);
      (p == [] <==> cat[q].isStatic) &&
      (p != [] ==> p[0] == Line(4, "def " + GroovyConstName(cat[q].simpleName) + " = [name: '" + q + "',") &&
                   p[1] == "requiredFields: [" + Join(RequiredFieldNames(fs), ",") + "]]\n" &&
                   (x in RequiredFieldNames(fs) <==> exists i :: 0 <= i < |fs| && fs[i].Required() && x == Quoted(fs[i].name)))
  {
    RequiredFieldNamesMembers(AllFields(cat, q), x);
  }

  /** `classToApiMessageGroovyInformation`. */
  method ClassToApiMessageGroovyInformation(sb: TextBuffer, cat: Catalog, q: string)
    requires WellFormed(cat) && q in cat
    modifies sb
    ensures sb.pieces == old(sb.pieces) + GroovyInfoPieces(cat, q)
  {
    var c := cat[q];
    if c.isStatic {
      return;
    }
    var name := Upper(ReplaceBackslashDot(c.simpleName));
    sb.Append(Line(4, "def " + name + " = [name: '" + c.name + "',"));
    var fs := AllFields(cat, q);
    var mandatoryFields: seq<string> := [];
    var i := 0;
    while i < |fs|
      invariant 0 <= i <= |fs|
      invariant mandatoryFields == RequiredFieldNames(fs[..i])
    {
      assert fs[..i + 1][..i] == fs[..i];
      if fs[i].param.Some? && fs[i].param.value.required {
        mandatoryFields := mandatoryFields + ["'" + fs[i].name + "'"];
      }
      i := i + 1;
    }
    assert fs[..i] == fs;
    sb.Append("requiredFields: [" + Join(mandatoryFields, ",") + "]]\n");
  }

  /** The entries of `generateApiMessageGroovyClass`, in scan order; a class that fails to
      load is skipped with a warning. */
  function GroovyInfoAll(cat: Catalog, scan: seq<ScanEntry>): seq<string>
    requires WellFormed(cat) && ScanIn(cat, scan)
  {
    if scan == [] then []
    else
      var e := scan[|scan| - 1];
      GroovyInfoAll(cat, scan[..|scan| - 1]) + (if e.LoadFailed? then [] else GroovyInfoPieces(cat, e.name))
  }

  /** A class that fails to load leaves no trace in the Groovy file. */
  lemma LoadFailureSkipped(cat: Catalog, scan: seq<ScanEntry>, bean: string)
    requires WellFormed(cat) && ScanIn(cat, scan)
    ensures ScanIn(cat, scan + [LoadFailed(bean)])
    ensures GroovyInfoAll(cat, scan + [LoadFailed(bean)]) == GroovyInfoAll(cat, scan)
  {
    var s := scan + [LoadFailed(bean)];
    assert s[..|scan|] == scan;
    assert ScanIn(cat, s) by {
      forall i | 0 <= i < |s| && s[i].Loaded? ensures s[i].name in cat {
        assert s[i] == scan[i];
      }
    }
    assert GroovyInfoAll(cat, s) == GroovyInfoAll(cat, scan) + [];
  }

  /** `generateApiMessageGroovyClass`. */
  method GenerateApiMessageGroovyClass(sb: TextBuffer, cat: Catalog, scan: seq<ScanEntry>)
    requires WellFormed(cat) && ScanIn(cat, scan)
    modifies sb
    ensures sb.pieces == old(sb.pieces) + GroovyInfoAll(cat, scan)
  {
    var i := 0;
    while i < |scan|
      invariant 0 <= i <= |scan| && ScanIn(cat, scan[..i])
      invariant sb.pieces == old(sb.pieces) + GroovyInfoAll(cat, scan[..i])
    {
      AppendGroovyInfo(sb, cat, scan, i, old(sb.pieces));
      i := i + 1;
    }
    assert scan[..i] == scan;
  }

  /** One step of the scan loop: the entry of a loaded class is appended, a load failure adds
      nothing. */
  method AppendGroovyInfo(sb: TextBuffer, cat: Catalog, scan: seq<ScanEntry>, i: nat, ghost start: seq<string>)
    requires WellFormed(cat) && ScanIn(cat, scan) && i < |scan| && ScanIn(cat, scan[..i])
    requires sb.pieces == start + GroovyInfoAll(cat, scan[..i])
    modifies sb
    ensures ScanIn(cat, scan[..i + 1])
    ensures sb.pieces == start + GroovyInfoAll(cat, scan[..i + 1])
  {
    GroovyInfoAllStep(cat, scan, i);
    var e := scan[i];
    ghost var done := GroovyInfoAll(cat, scan[..i]);
    ghost var piece := if e.LoadFailed? then [] else GroovyInfoPieces(cat, e.name);
    if e.Loaded? {
      ClassToApiMessageGroovyInformation(sb, cat, e.name);
    }
    AppendAssoc(start, done, piece);
  }

  lemma GroovyInfoAllStep(cat: Catalog, scan: seq<ScanEntry>, i: nat)
    requires WellFormed(cat) && ScanIn(cat, scan) && i < |scan|
    ensures ScanIn(cat, scan[..i]) && ScanIn(cat, scan[..i + 1])
    ensures scan[i].Loaded? ==> scan[i].name in cat
    ensures GroovyInfoAll(cat, scan[..i + 1]) ==
      GroovyInfoAll(cat, scan[..i]) + (if scan[i].LoadFailed? then [] else GroovyInfoPieces(cat, scan[i].name))
  {
    ScanInPrefix(cat, scan, i);
    ScanInPrefix(cat, scan, i + 1);
    assert scan[..i + 1][..i] == scan[..i];
  }

  /** The text of `ApiConstants.groovy`; `eventType` is `new APIEvent().getType()`. */
  function GroovyFile(cat: Catalog, scan: seq<ScanEntry>, eventType: string): seq<string>
    requires WellFormed(cat) && ScanIn(cat, scan)
  {
    ["package zstack.ui.api\n\n", "interface ApiConstants {\n",
     WhiteSpace(4) + "def API_EVENT_TYPE = '" + eventType + "'\n"] +
    GroovyInfoAll(cat, scan) + ["\n}\n"]
  }

  /** `generateGroovyClasses`: the interface header, one entry per scanned class, the closing brace. */
  method GenerateGroovyClasses(cat: Catalog, scan: seq<ScanEntry>, eventType: string) returns (text: string)
    requires WellFormed(cat) && ScanIn(cat, scan)
    ensures text == Concat(GroovyFile(cat, scan, eventType))
  {
    var sb := new TextBuffer();
    sb.Append("package zstack.ui.api\n\n");
    sb.Append("interface ApiConstants {\n");
    sb.Append(WhiteSpace(4) + "def API_EVENT_TYPE = '" + eventType + "'\n");
    ghost var head := sb.pieces;
    assert head == ["package zstack.ui.api\n\n", "interface ApiConstants {\n",
                    WhiteSpace(4) + "def API_EVENT_TYPE = '" + eventType + "'\n"];
    GenerateApiMessageGroovyClass(sb, cat, scan);
    sb.Append("\n}\n");
    assert sb.pieces == GroovyFile(cat, scan, eventType);
    text := sb.ToString();
  }

  // ---- the stub emitter ------------------------------------------------------------------

  /** The line a visible, non-static field gets in a stub: a required one starts as a
      `NotNullObject`. */
  function StubFieldLine(f: FieldDesc): string {
    if f.Required() then Line(4, "def " + f.name + " = new NotNullObject()") else Line(4, "def " + f.name)
  }

  /** The field lines of a stub: `@APINoSee` and static fields are skipped. */
  function StubFields(fs: seq<FieldDesc>): seq<string> {
    if fs == [] then []
    else
      var f := fs[|fs| - 1];
      StubFields(fs[..|fs| - 1]) + (if f.noSee || f.isStatic then [] else [StubFieldLine(f)])
  }

  /** The field gets `line` in a stub: it is visible, not static, and its line is `line`. */
  predicate Declares(f: FieldDesc, line: string) {
    !f.noSee && !f.isStatic && StubFieldLine(f) == line
  }

  /** A line appears among a stub's field lines exactly when some field declares it. */
  lemma StubFieldsMembers(fs: seq<FieldDesc>, line: string)
    ensures line in StubFields(fs) <==> exists i :: 0 <= i < |fs| && Declares(fs[i], line)
  {
    if line in StubFields(fs) {
      var i := StubFieldsFrom(fs, line);
    }
    if exists i :: 0 <= i < |fs| && Declares(fs[i], line) {
      var i :| 0 <= i < |fs| && Declares(fs[i], line);
      StubFieldsHas(fs, i);
    }
  }

  lemma {:induction false} StubFieldsFrom(fs: seq<FieldDesc>, line: string) returns (i: nat)
    requires line in StubFields(fs)
    ensures i < |fs| && Declares(fs[i], line)
  {
    var k := |fs| - 1;
    if line in StubFields(fs[..k]) {
      i := StubFieldsFrom(fs[..k], line);
      assert fs[..k][i] == fs[i];
    } else {
      i := k;
    }
  }

  lemma {:induction false} StubFieldsHas(fs: seq<FieldDesc>, i: nat)
    requires i < |fs| && !fs[i].noSee && !fs[i].isStatic
    ensures StubFieldLine(fs[i]) in StubFields(fs)
  {
    var k := |fs| - 1;
    if i < k {
      StubFieldsHas(fs[..k], i);
      assert fs[..k][i] == fs[i];
    }
  }

  /** A required field's line declares a `NotNullObject`, any other field's line a bare `def`. */
  lemma StubFieldLineRequired(f: FieldDesc)
    ensures StubFieldLine(f) == Line(4, "def " + f.name + " = new NotNullObject()") <==> f.Required()
  {
    if !f.Required() {
      var a, b := "def " + f.name + " = new NotNullObject()", "def " + f.name;
      assert |Line(4, a)| != |Line(4, b)|;
    }
  }

  /** The opening line of a stub, naming the superclass's simple name when there is one. */
  function StubHeader(cat: Catalog, q: string): string
    requires WellFormed(cat) && q in cat
  {
    var c := cat[q];
    match c.parent
    case Some(p) => Line(0, "public class " + c.simpleName + " extends " + cat[p].simpleName + " {")
    case None => Line(0, "public class " + c.simpleName + " {")
  }

  /** What follows the field lines: `fullName`, `eventType` for a concrete event, the closing brace. */
  function StubTrailer(c: TypeDesc, eventType: string -> string): seq<string> {
    ["\n" + Line(4, "def fullName() { return '" + c.name + "' }")] +
    (if c.isApiEvent && !c.isAbstract then [Line(4, "def eventType() { return '" + eventType(c.name) + "' }")] else []) +
    ["\n}\n\n"]
  }

  /** The text of one stub class (its superclass's stub not included). */
  function StubPieces(cat: Catalog, q: string, eventType: string -> string): seq<string>
    requires WellFormed(cat) && q in cat
  {
    [StubHeader(cat, q)] + StubFields(cat[q].fields) + StubTrailer(cat[q], eventType)
  }

  /** The stubs of `order`, one after another. */
  function StubTexts(cat: Catalog, order: seq<string>, eventType: string -> string): seq<string>
    requires WellFormed(cat) && forall i :: 0 <= i < |order| ==> order[i] in cat
  {
    if order == [] then [] else StubTexts(cat, order[..|order| - 1], eventType) + StubPieces(cat, order[|order| - 1], eventType)
  }

  /** What one call writes: nothing when the class's simple name is memoised, else the stubs of
      `EmitOrder`, superclass first. */
  function StubOrder(cat: Catalog, memo: set<string>, q: string): (r: seq<string>)
    requires WellFormed(cat) && q in cat
    ensures forall i :: 0 <= i < |r| ==> r[i] in cat
  {
    if cat[q].simpleName in memo then [] else EmitOrder(cat, memo, q)
  }

  /** A class already memoised is not written again; otherwise it is written last, after every
      superclass that was not memoised, each preceded by its own superclass, and all of them
      end up memoised. */
  lemma StubOrderFacts(cat: Catalog, memo: set<string>, q: string)
    requires WellFormed(cat) && q in cat
    ensures var order := StubOrder(cat, memo, q);
      (order == [] <==> cat[q].simpleName in memo) &&
      (order != [] ==>
         order[|order| - 1] == q && ParentFirst(cat, order) && cat[q].simpleName in memo + SimpleNames(cat, order))
  {
    if cat[q].simpleName !in memo {
      var order := EmitOrder(cat, memo, q);
      ParentBeforeChild(cat, memo, q);
      SimpleNamesIn(cat, order);
      assert SimpleNameList(cat, order)[|order| - 1] == cat[q].simpleName;
    }
  }

  /** `generatedGroovyClassName` and the stub emitter that reads it. */
  class GroovyStubGenerator {
    var generated: set<string>

    constructor ()
      ensures generated == {}
    {
      generated := {};
    }

    /** `classToApiMessageGroovyClass`: returns at once for a memoised class; otherwise writes
        the superclass first when it is not memoised, then the class, and marks it. */
    method ClassToApiMessageGroovyClass(sb: TextBuffer, cat: Catalog, q: string, eventType: string -> string)
      requires WellFormed(cat) && q in cat
      modifies this, sb
      ensures var order := StubOrder(cat, old(generated), q);
        sb.pieces == old(sb.pieces) + StubTexts(cat, order, eventType) &&
        generated == old(generated) + SimpleNames(cat, order)
      decreases cat[q].depth
    {
      var c := cat[q];
      if c.simpleName in generated {
        return;
      }
      ghost var memo := generated;
      StubStep(cat, memo, q, eventType);
      if c.parent.Some? && cat[c.parent.value].simpleName !in generated {
        ClassToApiMessageGroovyClass(sb, cat, c.parent.value, eventType);
      }
      AppendStub(sb, cat, q, eventType);
      generated := generated + {c.simpleName};
      AppendAssoc(old(sb.pieces), StubTexts(cat, Before(cat, memo, q), eventType), StubPieces(cat, q, eventType));
    }
  }

  /** One step of the stub recursion, for a class that is not memoised. */
  lemma StubStep(cat: Catalog, memo: set<string>, q: string, eventType: string -> string)
    requires WellFormed(cat) && q in cat && cat[q].simpleName !in memo
    ensures var before := Before(cat, memo, q);
      StubOrder(cat, memo, q) == before + [q] &&
      StubTexts(cat, StubOrder(cat, memo, q), eventType) == StubTexts(cat, before, eventType) + StubPieces(cat, q, eventType) &&
      SimpleNames(cat, StubOrder(cat, memo, q)) == SimpleNames(cat, before) + {cat[q].simpleName}
    ensures var p := cat[q].parent;
      if p.Some? && cat[p.value].simpleName !in memo then StubOrder(cat, memo, p.value) == Before(cat, memo, q)
      else Before(cat, memo, q) == []
  {
    EmitOrderStep(cat, memo, q);
    StubTextsAppend(cat, Before(cat, memo, q), q, eventType);
    SimpleNamesAppend(cat, Before(cat, memo, q), q);
  }

  lemma StubTextsAppend(cat: Catalog, order: seq<string>, q: string, eventType: string -> string)
    requires WellFormed(cat) && q in cat && forall i :: 0 <= i < |order| ==> order[i] in cat
    ensures StubTexts(cat, order + [q], eventType) == StubTexts(cat, order, eventType) + StubPieces(cat, q, eventType)
  {
    assert (order + [q])[..|order|] == order;
  }

  /** The appends of one stub class: header, field loop, trailer. */
  method AppendStub(sb: TextBuffer, cat: Catalog, q: string, eventType: string -> string)
    requires WellFormed(cat) && q in cat
    modifies sb
    ensures sb.pieces == old(sb.pieces) + StubPieces(cat, q, eventType)
  {
    var c := cat[q];
    if c.parent.Some? {
      sb.Append(Line(0, "public class " + c.simpleName + " extends " + cat[c.parent.value].simpleName + " {"));
    } else {
      sb.Append(Line(0, "public class " + c.simpleName + " {"));
    }
    AppendStubFields(sb, c.fields);
    AppendStubTrailer(sb, c, eventType);
    AppendAssoc(old(sb.pieces), [StubHeader(cat, q)], StubFields(c.fields));
    AppendAssoc(old(sb.pieces), [StubHeader(cat, q)] + StubFields(c.fields), StubTrailer(c, eventType));
  }

  /** The field loop of a stub. */
  method AppendStubFields(sb: TextBuffer, fs: seq<FieldDesc>)
    modifies sb
    ensures sb.pieces == old(sb.pieces) + StubFields(fs)
  {
    var i := 0;
    while i < |fs|
      invariant 0 <= i <= |fs|
      invariant sb.pieces == old(sb.pieces) + StubFields(fs[..i])
    {
      assert fs[..i + 1][..i] == fs[..i];
      var f := fs[i];
      if !f.noSee && !f.isStatic {
        if f.param.Some? && f.param.value.required {
          sb.Append(Line(4, "def " + f.name + " = new NotNullObject()"));
        } else {
          sb.Append(Line(4, "def " + f.name));
        }
      }
      i := i + 1;
    }
    assert fs[..i] == fs;
  }

  /** The end of a stub; `eventType` stands for `newInstance().getType()` of a concrete event. */
  method AppendStubTrailer(sb: TextBuffer, c: TypeDesc, eventType: string -> string)
    modifies sb
    ensures sb.pieces == old(sb.pieces) + StubTrailer(c, eventType)
  {
    sb.Append("\n" + Line(4, "def fullName() { return '" + c.name + "' }"));
    if c.isApiEvent && !c.isAbstract {
      sb.Append(Line(4, "def eventType() { return '" + eventType(c.name) + "' }"));
    }
    sb.Append("\n}\n\n");
  }
}
