/** The Python binding generator of `ConfigurationManagerImpl`: the memo of generated simple
    names, the two recursive class emitters and the passes over the class-path scan. */
module PythonGenerator {
  import opened Wrappers
  import opened Text
  import opened Catalog
  import opened PythonText
  import opened Emission
  import opened PythonPasses

  /** `generateSimplePythonClass`. */
  method GenerateSimplePythonClass(sb: TextBuffer, c: TypeDesc)
    modifies sb
    ensures sb.pieces == old(sb.pieces) + SimpleClassPieces(c)
  {
    sb.Append(Line(0, "class " + c.simpleName + "(object):"));
    sb.Append(Line(4, "def __init__(self):"));
    AppendNoneInits(sb, c.fields);
    sb.Append("\n\n");
  }

  /** The head of `generateBaseApiMessagePythonClass`. */
  method GenerateApiMessageClass(sb: TextBuffer, m: TypeDesc)
    modifies sb
    ensures sb.pieces == old(sb.pieces) + ApiMessageClassPieces(m)
  {
    sb.Append(Line(0, "class " + m.simpleName + "(object):"));
    sb.Append(Line(4, "def __init__(self):"));
    sb.Append(Line(8, "super(" + m.simpleName + ", self).__init__()"));
    sb.Append(Line(8, "self.timeout = None"));
    AppendNoneInits(sb, m.fields);
    sb.Append("\n\n");
  }

  /** The loop `self.<field> = None` over the declared fields of a class. */
  method AppendNoneInits(sb: TextBuffer, fs: seq<FieldDesc>)
    modifies sb
    ensures sb.pieces == old(sb.pieces) + NoneInits(fs)
  {
    var i := 0;
    while i < |fs|
      invariant 0 <= i <= |fs|
      invariant sb.pieces == old(sb.pieces) + NoneInits(fs[..i])
    {
      assert fs[..i + 1][..i] == fs[..i];
      sb.Append(InitNone(fs[i].name));
      i := i + 1;
    }
    assert fs[..i] == fs;
  }

  /** `generateSessionPythonClass`. */
  method GenerateSessionPythonClass(sb: TextBuffer)
    modifies sb
    ensures sb.pieces == old(sb.pieces) + SessionClassPieces
  {
    sb.Append(Line(0, "class Session(object):"));
    sb.Append(Line(4, "def __init__(self):"));
    sb.Append(Line(8, "self.uuid = None"));
    sb.Append("\n\n");
  }

  /** `generateMandoryFieldClass`: the five sentinel classes. */
  method GenerateMandatoryFieldClass(sb: TextBuffer)
    modifies sb
    ensures sb.pieces == old(sb.pieces) + MandatoryFieldClassPieces()
  {
    var i := 0;
    while i < |SentinelClasses|
      invariant 0 <= i <= |SentinelClasses|
      invariant sb.pieces == old(sb.pieces) + Flatten(seq(i, k requires 0 <= k < i => SentinelClassPieces(SentinelClasses[k])))
    {
      var done := seq(i, k requires 0 <= k < i => SentinelClassPieces(SentinelClasses[k]));
      var next := seq(i + 1, k requires 0 <= k < i + 1 => SentinelClassPieces(SentinelClasses[k]));
      assert next[..i] == done;
      sb.AppendAll(SentinelClassPieces(SentinelClasses[i]));
      i := i + 1;
    }
  }

  /** `generateApiNameList`. */
  method GenerateApiNameList(sb: TextBuffer, names: seq<string>)
    modifies sb
    ensures sb.pieces == old(sb.pieces) + ApiNameListPieces(names)
  {
    sb.Append("\napi_names = [");
    var i := 0;
    while i < |names|
      invariant 0 <= i <= |names|
      invariant sb.pieces == old(sb.pieces) + ["\napi_names = ["] + ApiNameLines(names[..i])
    {
      assert names[..i + 1][..i] == names[..i];
      sb.Append(ApiNameLine(names[i]));
      i := i + 1;
    }
    assert names[..i] == names;
    sb.Append("\n]\n");
  }

  /** Appends each collected text in turn. */
  method AppendEach(sb: TextBuffer, parts: seq<seq<string>>)
    modifies sb
    ensures sb.pieces == old(sb.pieces) + Flatten(parts)
  {
    var j := 0;
    while j < |parts|
      invariant 0 <= j <= |parts|
      invariant sb.pieces == old(sb.pieces) + Flatten(parts[..j])
    {
      assert parts[..j + 1][..j] == parts[..j];
      sb.AppendAll(parts[j]);
      j := j + 1;
    }
    assert parts[..j] == parts;
  }

  /** The generator state: `generatedPythonClassName`, the simple names of the Python classes
      written so far in this session. `emitted` records, for the proofs only, the qualified
      names of those classes in the order they were written. */
  class PythonBindingGenerator {
    var generated: set<string>
    ghost var emitted: seq<string>

    /** A session starts with an empty memo. */
    constructor ()
      ensures generated == {} && emitted == []
    {
      generated := {};
      emitted := [];
    }

    /** `isPythonClassGenerated`. */
    predicate IsPythonClassGenerated(c: TypeDesc)
      reads this
    {
      c.simpleName in generated
    }

    /** `markPythonClassAsGenerated`. */
    method MarkPythonClassAsGenerated(c: TypeDesc)
      modifies this
      ensures generated == old(generated) + {c.simpleName} && emitted == old(emitted)
    {
      generated := generated + {c.simpleName};
    }

    /** `classToApiMessagePythonClass`: the superclass first when it is not yet generated,
        then the class; every class written is marked. */
    method ClassToApiMessagePythonClass(cat: Catalog, q: string) returns (text: seq<string>)
      requires WellFormed(cat) && q in cat
      modifies this
      ensures var order := EmitOrder(cat, old(generated), q);
        text == ClassTexts(MessageBinding, cat, order) &&
        generated == old(generated) + SimpleNames(cat, order) &&
        emitted == old(emitted) + order
      decreases cat[q].depth
    {
      ghost var memo := generated;
      var c := cat[q];
      var parentText := [];
      if c.parent.Some? && !IsPythonClassGenerated(cat[c.parent.value]) {
        parentText := ClassToApiMessagePythonClass(cat, c.parent.value);
      }
      assert parentText == ClassTexts(MessageBinding, cat, Before(cat, memo, q));
      assert generated == memo + SimpleNames(cat, Before(cat, memo, q));
      var own := MessageClassText(c, ParentSimpleName(cat, q));
      EmitStep(MessageBinding, cat, memo, q, parentText, own);
      text := parentText + own;
      MarkPythonClassAsGenerated(c);
      emitted := emitted + [q];
    }

    /** `classToInventoryPythonClass`, with the same recursion. */
    method ClassToInventoryPythonClass(cat: Catalog, q: string) returns (text: seq<string>)
      requires WellFormed(cat) && q in cat
      modifies this
      ensures var order := EmitOrder(cat, old(generated), q);
        text == ClassTexts(InventoryBinding, cat, order) &&
        generated == old(generated) + SimpleNames(cat, order) &&
        emitted == old(emitted) + order
      decreases cat[q].depth
    {
      ghost var memo := generated;
      var c := cat[q];
      var parentText := [];
      if c.parent.Some? && !IsPythonClassGenerated(cat[c.parent.value]) {
        parentText := ClassToInventoryPythonClass(cat, c.parent.value);
      }
      assert parentText == ClassTexts(InventoryBinding, cat, Before(cat, memo, q));
      assert generated == memo + SimpleNames(cat, Before(cat, memo, q));
      var own := InventoryClassText(c, ParentSimpleName(cat, q));
      EmitStep(InventoryBinding, cat, memo, q, parentText, own);
      text := parentText + own;
      MarkPythonClassAsGenerated(c);
      emitted := emitted + [q];
    }

    /** `generateBaseApiMessagePythonClass`. */
    method GenerateBaseApiMessagePythonClass(sb: TextBuffer, cat: Catalog)
      requires BaseClassesPresent(cat)
      modifies this, sb
      ensures var base := BaseSection(cat, old(generated));
        sb.pieces == old(sb.pieces) + base.text && generated == base.memo && emitted == old(emitted) + base.log
    {
      var m := cat[ApiMessageClass];
      GenerateApiMessageClass(sb, m);
      ghost var p1 := sb.pieces;
      MarkPythonClassAsGenerated(m);
      emitted := emitted + [ApiMessageClass];
      ghost var memo1 := generated;
      ghost var order := EmitOrder(cat, memo1, ApiDeleteMessageClass);
      AppendAssoc(old(emitted), [ApiMessageClass], order);
      var deleteText := ClassToApiMessagePythonClass(cat, ApiDeleteMessageClass);
      sb.AppendAll(deleteText);
      MarkPythonClassAsGenerated(cat[ApiDeleteMessageClass]);
      ghost var a, b := ApiMessageClassPieces(m), ClassTexts(MessageBinding, cat, order);
      assert sb.pieces == old(sb.pieces) + a + b;
      assert generated == memo1 + SimpleNames(cat, order) + {cat[ApiDeleteMessageClass].simpleName};
      GenerateSimplePythonClass(sb, cat[NolTripleClass]);
      GenerateSimplePythonClass(sb, cat[NovTripleClass]);
      ghost var c, d := SimpleClassPieces(cat[NolTripleClass]), SimpleClassPieces(cat[NovTripleClass]);
      assert BaseSection(cat, old(generated)).text == a + b + c + d;
      AppendFour(old(sb.pieces), a, b, c, d);
    }

    /** `generateApiMessagePythonClass`: the fixed classes, the scanned classes, then the
        `api_names` list without the base class names. */
    method GenerateApiMessagePythonClass(sb: TextBuffer, cat: Catalog, scan: seq<ScanEntry>)
      requires BaseClassesPresent(cat) && ScanIn(cat, scan)
      modifies this, sb
      ensures var m := MessageModule(cat, old(generated), scan);
        sb.pieces == old(sb.pieces) + m.text && generated == m.memo && emitted == old(emitted) + m.log
    {
      GenerateSessionPythonClass(sb);
      GenerateSimplePythonClass(sb, cat[ErrorCodeClass]);
      GenerateBaseApiMessagePythonClass(sb, cat);
      ghost var base := BaseSection(cat, old(generated));
      var apiNames := GenerateApiMessageClasses(sb, cat, scan);
      ghost var pass := MessagePass(cat, base.memo, scan);
      apiNames := RemoveFirst(apiNames, cat[ApiMessageClass].simpleName);
      apiNames := RemoveFirst(apiNames, cat[ApiListMessageClass].simpleName);
      apiNames := RemoveFirst(apiNames, cat[ApiDeleteMessageClass].simpleName);
      apiNames := RemoveFirst(apiNames, cat[ApiSearchMessageClass].simpleName);
      GenerateApiNameList(sb, apiNames);
      AppendFive(old(sb.pieces), SessionClassPieces, SimpleClassPieces(cat[ErrorCodeClass]), base.text, pass.text,
                 ApiNameListPieces(apiNames));
      AppendAssoc(old(emitted), base.log, pass.log);
    }

    /** The scan loop of `generateApiMessagePythonClass`: every scanned class that is not a
        base class, not a search, list or get message, not abstract and not already generated
        is written, and its simple name collected. */
    method GenerateApiMessageClasses(sb: TextBuffer, cat: Catalog, scan: seq<ScanEntry>) returns (apiNames: seq<string>)
      requires WellFormed(cat) && ScanIn(cat, scan)
      modifies this, sb
      ensures var pass := MessagePass(cat, old(generated), scan);
        sb.pieces == old(sb.pieces) + pass.text && generated == pass.memo && apiNames == pass.names &&
        emitted == old(emitted) + pass.log
    {
      apiNames := [];
      ghost var s := MessagePass(cat, old(generated), []);
      var i := 0;
      while i < |scan|
        invariant 0 <= i <= |scan| && ScanIn(cat, scan[..i])
        invariant s == MessagePass(cat, old(generated), scan[..i])
        invariant sb.pieces == old(sb.pieces) + s.text
        invariant generated == s.memo && apiNames == s.names
        invariant emitted == old(emitted) + s.log
      {
        var e := scan[i];
        if e.Loaded? && !SkippedByMessagePass(cat[e.name]) && !IsPythonClassGenerated(cat[e.name]) {
          MessagePassEmit(cat, old(generated), scan, i);
          ghost var order := EmitOrder(cat, s.memo, e.name);
          AppendAssoc(old(sb.pieces), s.text, ClassTexts(MessageBinding, cat, order));
          AppendAssoc(old(emitted), s.log, order);
          var t := ClassToApiMessagePythonClass(cat, e.name);
          sb.AppendAll(t);
          apiNames := apiNames + [cat[e.name].simpleName];
        } else {
          MessagePassSkip(cat, old(generated), scan, i);
        }
        s := MessagePass(cat, old(generated), scan[..i + 1]);
        i := i + 1;
      }
      assert scan[..i] == scan;
    }

    /** `generateInventoryPythonClass`: each scanned class not yet generated, collected first
        and appended afterwards. */
    method GenerateInventoryPythonClass(sb: TextBuffer, cat: Catalog, scan: seq<ScanEntry>)
      requires WellFormed(cat) && ScanIn(cat, scan)
      modifies this, sb
      ensures var p := InventoryPass(cat, old(generated), scan);
        sb.pieces == old(sb.pieces) + p.text && generated == p.memo && emitted == old(emitted) + p.log
    {
      var inventoryPython: seq<seq<string>> := [];
      ghost var s := InventoryPass(cat, old(generated), []);
      var i := 0;
      while i < |scan|
        invariant 0 <= i <= |scan| && ScanIn(cat, scan[..i])
        invariant s == InventoryPass(cat, old(generated), scan[..i])
        invariant Flatten(inventoryPython) == s.text
        invariant generated == s.memo && emitted == old(emitted) + s.log
        invariant sb.pieces == old(sb.pieces)
      {
        var e := scan[i];
        if e.Loaded? && !IsPythonClassGenerated(cat[e.name]) {
          InventoryPassEmit(cat, old(generated), scan, i);
          AppendAssoc(old(emitted), s.log, EmitOrder(cat, s.memo, e.name));
          var t := ClassToInventoryPythonClass(cat, e.name);
          FlattenAppend(inventoryPython, [t]);
          assert Flatten([t]) == t by { assert [t][..0] == []; }
          inventoryPython := inventoryPython + [t];
        } else {
          InventoryPassSkip(cat, old(generated), scan, i);
        }
        s := InventoryPass(cat, old(generated), scan[..i + 1]);
        i := i + 1;
      }
      assert scan[..i] == scan;
      AppendEach(sb, inventoryPython);
    }
  }
}
