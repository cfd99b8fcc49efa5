/** The text of one Python class, as `classToApiMessagePythonClass` and
    `classToInventoryPythonClass` write it once the superclass has been dealt with, and the fixed
    helper classes the binding file starts with. A class's text is the sequence of pieces its
    loop appends; `parent` is the superclass's simple name, `None` when the superclass is `Object`. */
module PythonText {
  import opened Wrappers
  import opened Text
  import opened Catalog

  /** The initialiser a message class gives a field: the Collection test comes before the Map test. */
  function Initialiser(kind: FieldKind, required: bool): (r: string)
    ensures (|r| >= 7 && r[..7] == "NotNone") <==> required
    ensures r == "None" <==> (kind == Scalar && !required)
  {
    match kind
    case Collection => if required then "NotNoneList()" else assert "OptionalList()"[0] == 'O'; "OptionalList()"
    case MapKind => if required then "NotNoneMap()" else assert "OptionalMap()"[0] == 'O'; "OptionalMap()"
    case Scalar => if required then "NotNoneField()" else assert "None"[1] == 'o'; "None"
  }

  /** The six initialisers are pairwise distinct: kind and required-ness can be read back. */
  lemma InitialiserInjective(k1: FieldKind, r1: bool, k2: FieldKind, r2: bool)
    requires Initialiser(k1, r1) == Initialiser(k2, r2)
    ensures k1 == k2 && r1 == r2
  {
    var a, b := Initialiser(k1, r1), Initialiser(k2, r2);
    assert r1 == r2;
  }

  /** The sentinel classes `generateMandoryFieldClass` defines, in the order it writes them. */
  const SentinelClasses: seq<string> := ["NotNoneField", "NotNoneList", "OptionalList", "NotNoneMap", "OptionalMap"]

  function SentinelClassPieces(n: string): seq<string> {
    ["\n\nclass " + n + "(object):", Line(4, "pass\n")]
  }

  /** `generateMandoryFieldClass`: one empty class per sentinel. */
  function MandatoryFieldClassPieces(): seq<string> {
    Flatten(seq(|SentinelClasses|, i requires 0 <= i < |SentinelClasses| => SentinelClassPieces(SentinelClasses[i])))
  }

  /** Every initialiser other than `None` instantiates a class the binding file defines. */
  lemma SentinelsAreDefined(kind: FieldKind, required: bool)
    ensures Initialiser(kind, required) == "None" ||
      exists i :: 0 <= i < |SentinelClasses| &&
        Initialiser(kind, required) == SentinelClasses[i] + "()" &&
        "\n\nclass " + SentinelClasses[i] + "(object):" in MandatoryFieldClassPieces()
  {
    var ss := seq(|SentinelClasses|, i requires 0 <= i < |SentinelClasses| => SentinelClassPieces(SentinelClasses[i]));
    var init := Initialiser(kind, required);
    if init != "None" {
      var i := if init == "NotNoneField()" then 0 else if init == "NotNoneList()" then 1
        else if init == "OptionalList()" then 2 else if init == "NotNoneMap()" then 3 else 4;
      assert ss[i][0] == "\n\nclass " + SentinelClasses[i] + "(object):";
      FlattenContains(ss, i, ss[i][0]);
    }
  }

  // ---- message classes -------------------------------------------------------------------

  const MandatoryComment := Line(8, "#mandatory field")
  const PassLine := Line(8, "pass")

  /** `values.toString()` of an `ArrayList<String>`. */
  function ListText(values: seq<string>): string {
    "[" + Join(values, ", ") + "]"
  }

  function ValidValuesComment(values: seq<string>): string {
    Line(8, "#valid values: " + ListText(values))
  }

  function Assignment(field: string, init: string): string {
    Line(8, "self." + field + " = " + init)
  }

  /** What one declared field contributes to a message class: nothing when `@APINoSee`,
      otherwise the optional comments and the initialiser. */
  function FieldPieces(f: FieldDesc): seq<string> {
    if f.noSee then []
    else MandatoryPart(f) + ValidValuesPart(f) + [Assignment(f.name, Initialiser(f.kind, f.Required()))]
  }

  function MandatoryPart(f: FieldDesc): seq<string> {
    if f.Required() then [MandatoryComment] else []
  }

  function ValidValuesPart(f: FieldDesc): seq<string> {
    if f.param.Some? && |f.param.value.validValues| != 0 then [ValidValuesComment(f.param.value.validValues)] else []
  }

  function FieldsPieces(fs: seq<FieldDesc>): seq<string> {
    ConcatMap(FieldPieces, fs)
  }

  /** Some field lacks `@APINoSee`. */
  predicate AnyVisible(fs: seq<FieldDesc>) {
    fs != [] && (AnyVisible(fs[..|fs| - 1]) || !fs[|fs| - 1].noSee)
  }

  /** The fields without `@APINoSee`, in declaration order. */
  function VisibleFields(fs: seq<FieldDesc>): seq<FieldDesc> {
    if fs == [] then []
    else VisibleFields(fs[..|fs| - 1]) + (if fs[|fs| - 1].noSee then [] else [fs[|fs| - 1]])
  }

  /** The `<NAME>_FULL_NAME = '<qualified name>'` line and the class header. */
  function MessageHeader(c: TypeDesc, parent: Option<string>): seq<string> {
    [Line(0, Upper(c.simpleName + "_FULL_NAME") + " = '" + c.name + "'")] +
    match parent
    case Some(p) =>
      [Line(0, "class " + c.simpleName + "(" + p + "):"),
       Line(4, "FULL_NAME='" + c.name + "'"),
       Line(4, "def __init__(self):"),
       Line(8, "super(" + c.simpleName + ", self).__init__()")]
    case None =>
      [Line(0, "class " + c.simpleName + "(object):"),
       Line(4, "def __init__(self):")]
  }

  /** The whole text of one message class (the superclass's text not included). */
  function MessageClassPieces(c: TypeDesc, parent: Option<string>): seq<string> {
    MessageHeader(c, parent) + FieldsPieces(c.fields) +
    (if parent.None? && !AnyVisible(c.fields) then [PassLine] else []) +
    ["\n\n"]
  }

  /** Extending a field prefix by one field extends its pieces by that field's pieces. */
  lemma FieldsPrefixStep(fs: seq<FieldDesc>, i: nat)
    requires i < |fs|
    ensures FieldsPieces(fs[..i + 1]) == FieldsPieces(fs[..i]) + FieldPieces(fs[i])
    ensures AnyVisible(fs[..i + 1]) == (AnyVisible(fs[..i]) || !fs[i].noSee)
  {
    assert fs[..i + 1] == fs[..i] + [fs[i]];
    ConcatMapSnoc(FieldPieces, fs[..i], fs[i]);
    assert fs[..i + 1][..i] == fs[..i];
  }

  /** One pass of the field loop of `classToApiMessagePythonClass` on a visible field. */
  method VisibleFieldText(f: FieldDesc) returns (pieces: seq<string>)
    requires !f.noSee
    ensures pieces == FieldPieces(f)
  {
    var required := f.param.Some? && f.param.value.required;
    pieces := [];
    if required {
      pieces := pieces + [MandatoryComment];
    }
    if f.param.Some? && |f.param.value.validValues| != 0 {
      pieces := pieces + [ValidValuesComment(f.param.value.validValues)];
    }
    pieces := pieces + [Assignment(f.name, Initialiser(f.kind, required))];
  }

  /** `classToApiMessagePythonClass` once the superclass is dealt with. */
  method MessageClassText(c: TypeDesc, parent: Option<string>) returns (text: seq<string>)
    ensures text == MessageClassPieces(c, parent)
  {
    var body, emptyLine := MessageFieldsText(c.fields, parent.None?);
    text := MessageHeader(c, parent) + body;
    if emptyLine {
      text := text + [PassLine];
    }
    text := text + ["\n\n"];
  }

  /** The field loop of `classToApiMessagePythonClass`, with its `emptyLine` flag, which starts
      true only for a class without a superclass. */
  method MessageFieldsText(fields: seq<FieldDesc>, noParent: bool) returns (body: seq<string>, emptyLine: bool)
    ensures body == FieldsPieces(fields)
    ensures emptyLine == (noParent && !AnyVisible(fields))
  {
    body := [];
    emptyLine := noParent;
    var i := 0;
    while i < |fields|
      invariant 0 <= i <= |fields|
      invariant body == FieldsPieces(fields[..i])
      invariant emptyLine == (noParent && !AnyVisible(fields[..i]))
    {
      var f := fields[i];
      FieldsPrefixStep(fields, i);
      if !f.noSee {
        var pieces := VisibleFieldText(f);
        body := body + pieces;
        emptyLine := false;
      }
      i := i + 1;
    }
    assert fields[..i] == fields;
  }

  // ---- which pieces are which --------------------------------------------------------------

  /** The shape shared by every piece a field can produce and by the `pass` line: indented by
      eight, its text starting with `#`, `p` or `se`, and not ending in a quote. */
  predicate FieldLike(s: string) {
    |s| >= 11 && s[1] == ' ' && s[5] == ' ' && s[|s| - 1] != '\'' &&
    (s[9] == '#' || s[9] == 'p' || (s[9] == 's' && s[10] == 'e'))
  }

  /** The pieces of a field, and the `pass` line, are field-like and told apart by their
      tenth and eleventh characters. */
  lemma FieldPieceChars(f: FieldDesc)
    ensures FieldLike(MandatoryComment) && MandatoryComment[9..11] == "#m"
    ensures FieldLike(PassLine) && PassLine[9..11] == "pa"
    ensures FieldLike(ValidValuesComment(f.ValidValues())) && ValidValuesComment(f.ValidValues())[9..11] == "#v"
    ensures var a := Assignment(f.name, Initialiser(f.kind, f.Required())); FieldLike(a) && a[9..11] == "se"
  {
    FixedPieceChars();
    ValidValuesChars(f.ValidValues());
    AssignmentChars(f.name, Initialiser(f.kind, f.Required()));
  }

  lemma FixedPieceChars()
    ensures FieldLike(MandatoryComment) && MandatoryComment[9..11] == "#m"
    ensures FieldLike(PassLine) && PassLine[9..11] == "pa"
  {
    var m, p := "#mandatory field", "pass";
    assert m[..2] == "#m" && m[|m| - 1] == 'd';
    DeepLineChars(m);
    assert p[..2] == "pa" && p[|p| - 1] == 's';
    DeepLineChars(p);
  }

  /** A line indented by eight: its tenth and eleventh characters are its text's first two. */
  lemma DeepLineChars(text: string)
    requires |text| >= 2 && text[|text| - 1] != '\'' && (text[0] == '#' || text[0] == 'p' || text[..2] == "se")
    ensures FieldLike(Line(8, text)) && Line(8, text)[9..11] == text[..2]
  {
    var l := Line(8, text);
    LineChars(8, text);
    assert l[1] == ' ' && l[5] == ' ';
    assert l[9] == text[0] && l[10] == text[1] && l[|l| - 1] == text[|text| - 1];
    assert l[9..11] == [l[9], l[10]] && text[..2] == [text[0], text[1]];
  }

  lemma ValidValuesChars(values: seq<string>)
    ensures FieldLike(ValidValuesComment(values)) && ValidValuesComment(values)[9..11] == "#v"
  {
    var v := "#valid values: " + ListText(values);
    LineChars(8, v);
    assert v[0] == '#' && v[1] == 'v';
    assert v[|v| - 1] == ']';
  }

  lemma AssignmentChars(field: string, init: string)
    requires init != [] && init[|init| - 1] != '\''
    ensures FieldLike(Assignment(field, init)) && Assignment(field, init)[9..11] == "se"
  {
    var t := "self." + field + " = " + init;
    LineChars(8, t);
    assert t[0] == 's' && t[1] == 'e';
    assert t[|t| - 1] == init[|init| - 1];
  }

  /** A line indented by 0 or 4 whose text starts with a non-blank is not field-like. */
  lemma ShallowLineNotFieldLike(indent: nat, text: string)
    requires indent == 0 || indent == 4
    requires text != [] && text[0] != ' '
    ensures !FieldLike(Line(indent, text))
  {
    LineChars(indent, text);
  }

  /** A line whose last character is a quote is not field-like. */
  lemma QuotedLineNotFieldLike(indent: nat, text: string)
    requires text != [] && text[|text| - 1] == '\''
    ensures !FieldLike(Line(indent, text))
  {
    LineChars(indent, text);
  }

  /** No piece of a class header is field-like. */
  lemma HeaderNotFieldLike(c: TypeDesc, parent: Option<string>)
    ensures forall s :: s in MessageHeader(c, parent) ==> !FieldLike(s)
  {
    QuotedLineNotFieldLike(0, Upper(c.simpleName + "_FULL_NAME") + " = '" + c.name + "'");
    ShallowLineNotFieldLike(4, "def __init__(self):");
    match parent
    case Some(p) =>
      ShallowLineNotFieldLike(0, "class " + c.simpleName + "(" + p + "):");
      QuotedLineNotFieldLike(4, "FULL_NAME='" + c.name + "'");
      var sup := "super(" + c.simpleName + ", self).__init__()";
      LineChars(8, sup);
      assert sup[0] == 's' && sup[1] == 'u';
    case None =>
      ShallowLineNotFieldLike(0, "class " + c.simpleName + "(object):");
  }

  /** Every piece of `FieldsPieces(fs)` comes from one visible field of `fs`. */
  lemma FieldsPiecesFrom(fs: seq<FieldDesc>, s: string) returns (i: nat)
    requires s in FieldsPieces(fs)
    ensures i < |fs| && !fs[i].noSee && s in FieldPieces(fs[i])
  {
    i := ConcatMapFrom(FieldPieces, fs, s);
  }

  /** A visible field's pieces all appear in `FieldsPieces(fs)`. */
  lemma FieldsPiecesHas(fs: seq<FieldDesc>, i: nat, s: string)
    requires i < |fs| && s in FieldPieces(fs[i])
    ensures s in FieldsPieces(fs)
  {
    ConcatMapHas(FieldPieces, fs, i, s);
  }

  /** The comments a field gets: `#mandatory field` exactly when it is required, `#valid values`
      exactly when it has some; a hidden field gets nothing, a visible one its initialiser. */
  lemma FieldComments(f: FieldDesc)
    ensures MandatoryComment in FieldPieces(f) <==> !f.noSee && f.Required()
    ensures ValidValuesComment(f.ValidValues()) in FieldPieces(f) <==> !f.noSee && |f.ValidValues()| != 0
    ensures Assignment(f.name, Initialiser(f.kind, f.Required())) in FieldPieces(f) <==> !f.noSee
    ensures PassLine !in FieldPieces(f)
  {
    FieldPieceChars(f);
  }

  /** A message class starts with `pass` exactly when it has no superclass and no visible field:
      a subclass never does, as its `super().__init__()` line already fills the body. */
  lemma PassIff(c: TypeDesc, parent: Option<string>)
    ensures PassLine in MessageClassPieces(c, parent) <==> parent.None? && !AnyVisible(c.fields)
  {
    HeaderNotFieldLike(c, parent);
    var dummy := FieldDesc("", Scalar, None, false, false, false, false);
    FieldPieceChars(dummy);
    if PassLine in FieldsPieces(c.fields) {
      var i := FieldsPiecesFrom(c.fields, PassLine);
      FieldComments(c.fields[i]);
    }
    assert PassLine != "\n\n";
  }

  /** The number of visible required fields. */
  function RequiredVisibleCount(fs: seq<FieldDesc>): nat {
    if fs == [] then 0
    else RequiredVisibleCount(fs[..|fs| - 1]) + (if !fs[|fs| - 1].noSee && fs[|fs| - 1].Required() then 1 else 0)
  }

  lemma {:induction false} MandatoryCountInFields(fs: seq<FieldDesc>)
    ensures multiset(FieldsPieces(fs))[MandatoryComment] == RequiredVisibleCount(fs)
  {
    if fs != [] {
      var f := fs[|fs| - 1];
      MandatoryCountInFields(fs[..|fs| - 1]);
      FieldPieceChars(f);
      if !f.noSee {
        assert FieldPieces(f) == MandatoryPart(f) + ValidValuesPart(f) + [Assignment(f.name, Initialiser(f.kind, f.Required()))];
        assert multiset(ValidValuesPart(f))[MandatoryComment] == 0;
      }
    }
  }

  /** A message class carries exactly one `#mandatory field` comment per visible required field. */
  lemma MandatoryCommentCount(c: TypeDesc, parent: Option<string>)
    ensures multiset(MessageClassPieces(c, parent))[MandatoryComment] == RequiredVisibleCount(c.fields)
  {
    var h, t := MessageHeader(c, parent), (if parent.None? && !AnyVisible(c.fields) then [PassLine] else []) + ["\n\n"];
    assert MessageClassPieces(c, parent) == h + FieldsPieces(c.fields) + t;
    HeaderNotFieldLike(c, parent);
    FixedPieceChars();
    assert MandatoryComment !in h;
    assert MandatoryComment != PassLine && |MandatoryComment| != |"\n\n"|;
    assert MandatoryComment !in t;
    MandatoryCountInFields(c.fields);
    CountMiddle(h, FieldsPieces(c.fields), t, MandatoryComment);
  }

  /** Occurrences of `x` between two stretches without it. */
  lemma CountMiddle<T>(h: seq<T>, m: seq<T>, t: seq<T>, x: T)
    requires x !in h && x !in t
    ensures multiset(h + m + t)[x] == multiset(m)[x]
  {
    assert multiset(h + m + t) == multiset(h) + multiset(m) + multiset(t);
  }

  lemma {:induction false} VisibleFieldsSame(fs: seq<FieldDesc>)
    ensures FieldsPieces(VisibleFields(fs)) == FieldsPieces(fs)
    ensures AnyVisible(VisibleFields(fs)) == AnyVisible(fs)
  {
    if fs != [] {
      var n := |fs| - 1;
      VisibleFieldsSame(fs[..n]);
      var v := VisibleFields(fs[..n]);
      if !fs[n].noSee {
        var w := v + [fs[n]];
        assert w[..|w| - 1] == v && w[|w| - 1] == fs[n];
        assert FieldsPieces(w) == FieldsPieces(v) + FieldPieces(fs[n]);
        assert AnyVisible(w) == (AnyVisible(v) || !fs[n].noSee);
      } else {
        assert VisibleFields(fs) == v;
        assert FieldsPieces(fs) == FieldsPieces(fs[..n]);
      }
    }
  }

  /** `@APINoSee` fields leave no trace in a message class: dropping them changes nothing. */
  lemma HiddenFieldsLeaveNoTrace(c: TypeDesc, parent: Option<string>)
    ensures MessageClassPieces(c, parent) == MessageClassPieces(c.(fields := VisibleFields(c.fields)), parent)
  {
    VisibleFieldsSame(c.fields);
  }

  // ---- inventory classes -------------------------------------------------------------------

  function InventoryHeader(c: TypeDesc, parent: Option<string>): seq<string> {
    match parent
    case Some(p) =>
      [Line(0, "class " + c.simpleName + "(" + p + "):"),
       Line(4, "def __init__(self):"),
       Line(8, "super(" + c.simpleName + ", self).__init__()")]
    case None =>
      [Line(0, "class " + c.simpleName + "(object):"),
       Line(4, "def __init__(self):")]
  }

  function InitNone(field: string): string {
    Line(8, "self." + field + " = None")
  }

  function NoneInits(fs: seq<FieldDesc>): seq<string> {
    if fs == [] then [] else NoneInits(fs[..|fs| - 1]) + [InitNone(fs[|fs| - 1].name)]
  }

  function EvaluateHeader(c: TypeDesc, parent: Option<string>): seq<string> {
    ["\n" + Line(4, "def evaluate(self, inv):")] +
    (if parent.Some? then [Line(8, "super(" + c.simpleName + ", self).evaluate(inv)")] else [])
  }

  /** The copy of one field in `evaluate`: taken from `inv` when present, else `None`. */
  function CopyField(field: string): seq<string> {
    [Line(8, "if hasattr(inv, '" + field + "'):"),
     Line(12, "self." + field + " = inv." + field),
     Line(8, "else:"),
     Line(12, "self." + field + " = None\n")]
  }

  function CopyFields(fs: seq<FieldDesc>): seq<string> {
    if fs == [] then [] else CopyFields(fs[..|fs| - 1]) + CopyField(fs[|fs| - 1].name)
  }

  /** The whole text of one inventory class (the superclass's text not included). */
  function InventoryClassPieces(c: TypeDesc, parent: Option<string>): seq<string> {
    InventoryHeader(c, parent) + NoneInits(c.fields) + EvaluateHeader(c, parent) + CopyFields(c.fields) + ["\n\n"]
  }

  /** `classToInventoryPythonClass` once the superclass is dealt with. */
  method InventoryClassText(c: TypeDesc, parent: Option<string>) returns (text: seq<string>)
    ensures text == InventoryClassPieces(c, parent)
  {
    var inits := NoneInitsText(c.fields);
    var copies := CopyFieldsText(c.fields);
    text := InventoryHeader(c, parent) + inits + EvaluateHeader(c, parent) + copies + ["\n\n"];
  }

  /** The first field loop: every declared field set to `None`. */
  method NoneInitsText(fs: seq<FieldDesc>) returns (text: seq<string>)
    ensures text == NoneInits(fs)
  {
    text := [];
    var i := 0;
    while i < |fs|
      invariant 0 <= i <= |fs|
      invariant text == NoneInits(fs[..i])
    {
      assert fs[..i + 1][..i] == fs[..i];
      text := text + [InitNone(fs[i].name)];
      i := i + 1;
    }
    assert fs[..i] == fs;
  }

  /** The second field loop: every declared field copied from the JSON object. */
  method CopyFieldsText(fs: seq<FieldDesc>) returns (text: seq<string>)
    ensures text == CopyFields(fs)
  {
    text := [];
    var i := 0;
    while i < |fs|
      invariant 0 <= i <= |fs|
      invariant text == CopyFields(fs[..i])
    {
      assert fs[..i + 1][..i] == fs[..i];
      text := text + CopyField(fs[i].name);
      i := i + 1;
    }
    assert fs[..i] == fs;
  }

  /** The names of some fields, in order. */
  function FieldNames(fs: seq<FieldDesc>): (r: seq<string>)
    ensures |r| == |fs|
  {
    if fs == [] then [] else FieldNames(fs[..|fs| - 1]) + [fs[|fs| - 1].name]
  }

  lemma {:induction false} InventoryFieldsByName(fs: seq<FieldDesc>, gs: seq<FieldDesc>)
    requires FieldNames(fs) == FieldNames(gs)
    ensures NoneInits(fs) == NoneInits(gs) && CopyFields(fs) == CopyFields(gs)
  {
    if fs != [] {
      var n := |fs| - 1;
      assert FieldNames(fs)[..n] == FieldNames(fs[..n]);
      assert FieldNames(gs)[..n] == FieldNames(gs[..n]);
      assert fs[n].name == FieldNames(fs)[n] == FieldNames(gs)[n] == gs[n].name;
      InventoryFieldsByName(fs[..n], gs[..n]);
    }
  }

  /** An inventory class does no annotation filtering: its text depends only on the class's
      names and its fields' names, so `@APINoSee` and `@APIParam` make no difference. */
  lemma InventoryIgnoresAnnotations(c: TypeDesc, d: TypeDesc, parent: Option<string>)
    requires c.simpleName == d.simpleName && FieldNames(c.fields) == FieldNames(d.fields)
    ensures InventoryClassPieces(c, parent) == InventoryClassPieces(d, parent)
  {
    InventoryFieldsByName(c.fields, d.fields);
  }

  lemma {:induction false} InventoryCopiesField(fs: seq<FieldDesc>, i: nat)
    requires i < |fs|
    ensures InitNone(fs[i].name) in NoneInits(fs)
    ensures forall s :: s in CopyField(fs[i].name) ==> s in CopyFields(fs)
  {
    var n := |fs| - 1;
    if i < n {
      assert fs[..n][i] == fs[i];
      InventoryCopiesField(fs[..n], i);
    }
  }

  /** Every declared field, hidden or not, is set to `None` in `__init__` and copied from the
      source object in `evaluate`. */
  lemma InventoryCopiesEveryField(c: TypeDesc, parent: Option<string>, i: nat)
    requires i < |c.fields|
    ensures InitNone(c.fields[i].name) in InventoryClassPieces(c, parent)
    ensures forall s :: s in CopyField(c.fields[i].name) ==> s in InventoryClassPieces(c, parent)
  {
    InventoryCopiesField(c.fields, i);
  }
}
