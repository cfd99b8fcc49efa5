/** `generateGlobalConfigPythonConstant`: the global configurations grouped by category, one
    Python class of name constants per category. */
module GlobalConfigConstants {
  import opened Text

  /** A `GlobalConfig` as the generator sees it: its category and its name. */
  datatype GlobalConfig = GlobalConfig(category: string, name: string)

  /** The names of the configurations of category `k`, in the order they are met. */
  function NamesOf(cs: seq<GlobalConfig>, k: string): seq<string> {
    if cs == [] then []
    else NamesOf(cs[..|cs| - 1], k) + (if cs[|cs| - 1].category == k then [cs[|cs| - 1].name] else [])
  }

  /** A name is listed under `k` exactly when a configuration of that category has that name. */
  lemma {:induction false} NamesOfMembers(cs: seq<GlobalConfig>, k: string, n: string)
    ensures n in NamesOf(cs, k) <==> GlobalConfig(k, n) in cs
  {
    if cs != [] {
      var p := cs[..|cs| - 1];
      NamesOfMembers(p, k, n);
      assert cs == p + [cs[|cs| - 1]];
    }
  }

  /** The map the grouping loop builds: each configuration's name is added to the list of its
      category, a new list being made for a category not yet seen. */
  function Grouped(cs: seq<GlobalConfig>): map<string, seq<string>> {
    if cs == [] then map[]
    else
      var g, c := Grouped(cs[..|cs| - 1]), cs[|cs| - 1];
      g[c.category := (if c.category in g then g[c.category] else []) + [c.name]]
  }

  /** The grouping has a key exactly for each category that some configuration has, and under
      it the names of that category's configurations in order. */
  lemma {:induction false} GroupedIsNamesOf(cs: seq<GlobalConfig>, k: string)
    ensures k in Grouped(cs) <==> NamesOf(cs, k) != []
    ensures k in Grouped(cs) ==> Grouped(cs)[k] == NamesOf(cs, k)
  {
    if cs != [] {
      GroupedIsNamesOf(cs[..|cs| - 1], k);
    }
  }

  lemma GroupedKeys(cs: seq<GlobalConfig>, k: string)
    ensures k in Grouped(cs) <==> exists n :: GlobalConfig(k, n) in cs
  {
    GroupedIsNamesOf(cs, k);
    if k in Grouped(cs) {
      var n := NamesOf(cs, k)[0];
      NamesOfMembers(cs, k, n);
    }
    if exists n :: GlobalConfig(k, n) in cs {
      var n :| GlobalConfig(k, n) in cs;
      NamesOfMembers(cs, k, n);
    }
  }

  /** The grouping loop over `gcf.getAllConfig().values()`. */
  method GroupByCategory(cs: seq<GlobalConfig>) returns (configs: map<string, seq<string>>)
    ensures configs == Grouped(cs)
  {
    configs := map[];
    var i := 0;
    while i < |cs|
      invariant 0 <= i <= |cs|
      invariant configs == Grouped(cs[..i])
    {
      assert cs[..i + 1][..i] == cs[..i];
      var c := cs[i];
      var cnames: seq<string>;
      if c.category in configs {
        cnames := configs[c.category];
      } else {
        cnames := [];
      }
      configs := configs[c.category := cnames + [c.name]];
      i := i + 1;
    }
    assert cs[..i] == cs;
  }

  /** `GlobalConfig_` and the category upper-cased with its dots turned into underscores. */
  function ClassName(category: string): string {
    "GlobalConfig_" + ReplaceDots(Upper(category))
  }

  /** The constant of a configuration: its name with dots turned into underscores, upper-cased. */
  function ConstName(name: string): string {
    Upper(ReplaceDots(name))
  }

  /** Class and constant names are Python identifiers as far as dots go, and both are mangled
      the same way. */
  lemma MangledNames(category: string, name: string)
    ensures ClassName(category) == "GlobalConfig_" + ConstName(category)
    ensures '.' !in ClassName(category) && '.' !in ConstName(name)
  {
    UpperReplaceDotsCommute(category);
    UpperReplaceDotsCommute(name);
    NoDotConcat("GlobalConfig_", ConstName(category));
  }

  lemma NoDotConcat(a: string, b: string)
    requires '.' !in a && '.' !in b
    ensures '.' !in a + b
  {
    forall i | 0 <= i < |a + b| ensures (a + b)[i] != '.' {
      if i < |a| {
        assert (a + b)[i] == a[i];
      } else {
        assert (a + b)[i] == b[i - |a|];
      }
    }
  }

  function ConstLine(name: string): string {
    Line(4, ConstName(name) + " = '" + name + "'")
  }

  function ConstLines(names: seq<string>): seq<string> {
    if names == [] then [] else ConstLines(names[..|names| - 1]) + [ConstLine(names[|names| - 1])]
  }

  lemma {:induction false} ConstLinesHas(names: seq<string>, n: string)
    requires n in names
    ensures ConstLine(n) in ConstLines(names)
  {
    var k := |names| - 1;
    if names[k] != n {
      assert n in names[..k];
      ConstLinesHas(names[..k], n);
    }
  }

  /** The class of one category: header, one constant per name, `get_category()`. */
  function CategoryPieces(category: string, names: seq<string>): seq<string> {
    [Line(0, "class " + ClassName(category) + "(object):")] + ConstLines(names) +
    ["\n", Line(4, "@staticmethod"), Line(4, "def get_category():"), Line(8, "return '" + category + "'\n")]
  }

  /** The classes of the categories of `order`, one after another. */
  function CategoriesPieces(g: map<string, seq<string>>, order: seq<string>): seq<string>
    requires forall i :: 0 <= i < |order| ==> order[i] in g
  {
    if order == [] then []
    else CategoriesPieces(g, order[..|order| - 1]) + CategoryPieces(order[|order| - 1], g[order[|order| - 1]])
  }

  /** `order` lists each key of `g` once: the order of a `HashMap`'s entry set, which Java
      leaves unspecified. */
  ghost predicate EntryOrder(g: map<string, seq<string>>, order: seq<string>) {
    NoDup(order) && (forall k :: k in order <==> k in g)
  }

  lemma {:induction false} CategoriesPiecesHas(g: map<string, seq<string>>, order: seq<string>, k: string, x: string)
    requires forall i :: 0 <= i < |order| ==> order[i] in g
    requires k in order && x in CategoryPieces(k, g[k])
    ensures x in CategoriesPieces(g, order)
  {
    var j := |order| - 1;
    if order[j] != k {
      assert k in order[..j];
      CategoriesPiecesHas(g, order[..j], k, x);
    }
  }

  /** Every configuration gets its constant, in the class of its category, whatever order the
      categories come in. */
  lemma EveryConfigDeclared(cs: seq<GlobalConfig>, order: seq<string>, c: GlobalConfig)
    requires EntryOrder(Grouped(cs), order) && c in cs
    ensures forall i :: 0 <= i < |order| ==> order[i] in Grouped(cs)
    ensures Line(0, "class " + ClassName(c.category) + "(object):") in CategoriesPieces(Grouped(cs), order)
    ensures ConstLine(c.name) in CategoriesPieces(Grouped(cs), order)
    ensures Line(8, "return '" + c.category + "'\n") in CategoriesPieces(Grouped(cs), order)
  {
    var g := Grouped(cs);
    assert forall i :: 0 <= i < |order| ==> order[i] in g by {
      forall i | 0 <= i < |order| ensures order[i] in g {
        assert order[i] in order;
      }
    }
    GroupedKeys(cs, c.category);
    GroupedIsNamesOf(cs, c.category);
    NamesOfMembers(cs, c.category, c.name);
    ConstLinesHas(g[c.category], c.name);
    var block := CategoryPieces(c.category, g[c.category]);
    assert block[0] == Line(0, "class " + ClassName(c.category) + "(object):");
    assert block[|block| - 1] == Line(8, "return '" + c.category + "'\n");
    CategoriesPiecesHas(g, order, c.category, block[0]);
    CategoriesPiecesHas(g, order, c.category, ConstLine(c.name));
    CategoriesPiecesHas(g, order, c.category, block[|block| - 1]);
  }

  /** `generateGlobalConfigPythonConstant`: a newline, then one class per entry of the grouping,
      in the entry set's order, which the returned `order` records. */
  method GenerateGlobalConfigPythonConstant(sb: TextBuffer, cs: seq<GlobalConfig>) returns (ghost order: seq<string>)
    modifies sb
    ensures EntryOrder(Grouped(cs), order)
    ensures sb.pieces == old(sb.pieces) + ["\n"] + CategoriesPieces(Grouped(cs), order)
  {
    sb.Append("\n");
    var configs := GroupByCategory(cs);
    order := EmitCategories(sb, configs);
  }

  /** The loop over the entry set, taking the entries in an unspecified order. */
  method EmitCategories(sb: TextBuffer, configs: map<string, seq<string>>) returns (ghost order: seq<string>)
    modifies sb
    ensures EntryOrder(configs, order)
    ensures sb.pieces == old(sb.pieces) + CategoriesPieces(configs, order)
  {
    var remaining := configs.Keys;
    order := [];
    while remaining != {}
      invariant remaining <= configs.Keys && NoDup(order)
      invariant forall k :: k in order <==> k in configs && k !in remaining
      invariant sb.pieces == old(sb.pieces) + CategoriesPieces(configs, order)
      decreases remaining
    {
      var k :| k in remaining;
      EmitCategory(sb, k, configs[k]);
      AppendAssoc(old(sb.pieces), CategoriesPieces(configs, order), CategoryPieces(k, configs[k]));
      assert (order + [k])[..|order|] == order;
      order := order + [k];
      remaining := remaining - {k};
    }
  }

  /** The body of the entry loop: one category's class. */
  method EmitCategory(sb: TextBuffer, category: string, names: seq<string>)
    modifies sb
    ensures sb.pieces == old(sb.pieces) + CategoryPieces(category, names)
  {
    sb.Append(Line(0, "class " + ClassName(category) + "(object):"));
    AppendConstLines(sb, names);
    sb.Append("\n");
    sb.Append(Line(4, "@staticmethod"));
    sb.Append(Line(4, "def get_category():"));
    sb.Append(Line(8, "return '" + category + "'\n"));
  }

  /** The loop over a category's names. */
  method AppendConstLines(sb: TextBuffer, names: seq<string>)
    modifies sb
    ensures sb.pieces == old(sb.pieces) + ConstLines(names)
  {
    var i := 0;
    while i < |names|
      invariant 0 <= i <= |names|
      invariant sb.pieces == old(sb.pieces) + ConstLines(names[..i])
    {
      assert names[..i + 1][..i] == names[..i];
      var v := ReplaceDots(names[i]);
      sb.Append(Line(4, Upper(v) + " = '" + names[i] + "'"));
      i := i + 1;
    }
    assert names[..i] == names;
  }
}
