/** `generateVOViewSql` and `handle(APIGenerateSqlVOViewMsg)`: one `CREATE VIEW` statement per
    `@EO` entity that asks for a view, selecting the entity's `@Column` fields that are not
    `@NoView`, in field order, from its EO table where the soft-deletion column is null. The
    scanner keeps Spring's default filters, so besides the `@EO` classes it yields every
    `@Component`, `@Service` and `@Repository` class that is not a `@Controller`; those make the
    handler fail. */
module SqlView {
  import opened Wrappers
  import opened Text
  import opened Catalog

  /** A field the view selects: annotated `@Column` and not `@NoView`. */
  predicate IsViewColumn(f: FieldDesc) {
    f.column && !f.noView
  }

  /** The names of the view columns among `fs`, in field order. */
  function ViewColumns(fs: seq<FieldDesc>): seq<string> {
    if fs == [] then []
    else ViewColumns(fs[..|fs| - 1]) + (if IsViewColumn(fs[|fs| - 1]) then [fs[|fs| - 1].name] else [])
  }

  /** Field order is kept: the columns of `a + b` are those of `a`, then those of `b`. */
  lemma {:induction false} ViewColumnsAppend(a: seq<FieldDesc>, b: seq<FieldDesc>)
    ensures ViewColumns(a + b) == ViewColumns(a) + ViewColumns(b)
    decreases |b|
  {
    if b == [] {
      assert a + b == a;
    } else {
      var b', f := b[..|b| - 1], b[|b| - 1];
      assert (a + b)[..|a + b| - 1] == a + b' && (a + b)[|a + b| - 1] == f;
      ViewColumnsAppend(a, b');
    }
  }

  /** A name is selected exactly when some `@Column`, non-`@NoView` field carries it. */
  lemma {:induction false} ViewColumnsMembers(fs: seq<FieldDesc>, n: string)
    ensures n in ViewColumns(fs) <==> exists i :: 0 <= i < |fs| && IsViewColumn(fs[i]) && fs[i].name == n
  {
    if fs != [] {
      var k := |fs| - 1;
      ViewColumnsMembers(fs[..k], n);
      if n in ViewColumns(fs[..k]) {
        var i :| 0 <= i < k && IsViewColumn(fs[..k][i]) && fs[..k][i].name == n;
        assert fs[i] == fs[..k][i];
      }
      if exists i :: 0 <= i < |fs| && IsViewColumn(fs[i]) && fs[i].name == n {
        var i :| 0 <= i < |fs| && IsViewColumn(fs[i]) && fs[i].name == n;
        if i < k {
          assert fs[..k][i] == fs[i];
        }
      }
    }
  }

  /** The message of the `IllegalArgumentException` for an `@EO` class without `@Entity`. */
  function NotEntityError(q: string): string {
    "class[" + q + "] is annotated by @EO but not annotated by @Entity"
  }

  /** What the handler reports for an `@Entity` class without `@EO`: `getAnnotation(EO.class)`
      is null and `at.needView()` throws a `NullPointerException`, which carries no message. */
  const MissingEoError := "java.lang.NullPointerException"

  /** The three pieces of one `CREATE VIEW` statement. */
  function ViewPieces(simpleName: string, eo: EoAnnotation, cols: seq<string>): seq<string> {
    ["\nCREATE VIEW `zstack`.`" + simpleName + "` AS SELECT ",
     Join(cols, ", "),
     " FROM `zstack`.`" + eo.eoClass + "` WHERE " + eo.softDeletedColumn + " IS NULL;\n"]
  }

  /** What `generateVOViewSql` appends for one scanned class, or the exception it throws. */
  function VOViewSql(cat: Catalog, q: string): Result<seq<string>>
    requires WellFormed(cat) && q in cat
  {
    var c := cat[q];
    if !c.isEntity then Failure(NotEntityError(q))
    else if c.eo.None? then Failure(MissingEoError)
    else if !c.eo.value.needView then Success([])
    else Success(ViewPieces(c.simpleName, c.eo.value, ViewColumns(AllFields(cat, q))))
  }

  /** A class without `@Entity` is an error (with the `@EO` message, whether or not it has
      `@EO`), so is an entity without `@EO`; an entity with `needView = false` adds nothing,
      and any other class adds one statement naming itself, its EO class and its soft-deletion
      column, which selects exactly its view columns. */
  lemma VOViewSqlCases(cat: Catalog, q: string)
    requires WellFormed(cat) && q in cat
    ensures var r, c := VOViewSql(cat, q), cat[q];
      (r.Failure? <==> !c.isEntity || c.eo.None?) &&
      (!c.isEntity ==> r.error == "class[" + q + "] is annotated by @EO but not annotated by @Entity") &&
      (c.isEntity && c.eo.None? ==> r.error == "java.lang.NullPointerException") &&
      (r.Success? ==> c.eo.Some? && (r.value == [] <==> !c.eo.value.needView)) &&
      (r.Success? && c.eo.value.needView ==>
        |r.value| == 3 &&
        r.value[0] == "\nCREATE VIEW `zstack`.`" + c.simpleName + "` AS SELECT " &&
        r.value[1] == Join(ViewColumns(AllFields(cat, q)), ", ") &&
        r.value[2] == " FROM `zstack`.`" + c.eo.value.eoClass + "` WHERE " + c.eo.value.softDeletedColumn + " IS NULL;\n")
  {
  }

  /** `generateVOViewSql`: appends the statement, or throws before appending anything. */
  method GenerateVOViewSql(sb: TextBuffer, cat: Catalog, q: string) returns (error: Option<string>)
    requires WellFormed(cat) && q in cat
    modifies sb
    ensures match VOViewSql(cat, q)
      case Failure(e) => error == Some(e) && sb.pieces == old(sb.pieces)
      case Success(p) => error == None && sb.pieces == old(sb.pieces) + p
  {
    var c := cat[q];
    if !c.isEntity {
      return Some(NotEntityError(q));
    }
    if c.eo.None? {
      return Some(MissingEoError);
    }
    var at := c.eo.value;
    if !at.needView {
      return None;
    }
    var fs := AllFields(cat, q);
    sb.Append("\nCREATE VIEW `zstack`.`" + c.simpleName + "` AS SELECT ");
    var cols: seq<string> := [];
    var i := 0;
    while i < |fs|
      invariant 0 <= i <= |fs|
      invariant cols == ViewColumns(fs[..i])
    {
      assert fs[..i + 1][..i] == fs[..i];
      if fs[i].column && !fs[i].noView {
        cols := cols + [fs[i].name];
      }
      i := i + 1;
    }
    assert fs[..i] == fs;
    sb.Append(Join(cols, ", "));
    sb.Append(" FROM `zstack`.`" + at.eoClass + "` WHERE " + at.softDeletedColumn + " IS NULL;\n");
    error := None;
  }

  /** The text `handle(APIGenerateSqlVOViewMsg)` writes to `view.sql`, or the error that aborts
      it: a class that fails to load, a class without `@Entity`, or an entity without `@EO`. */
  function ViewFile(cat: Catalog, scan: seq<ScanEntry>): Result<seq<string>>
    requires WellFormed(cat) && ScanIn(cat, scan)
  {
    if scan == [] then Success([])
    else
      var prev := ViewFile(cat, scan[..|scan| - 1]);
      var e := scan[|scan| - 1];
      if prev.Failure? then prev
      else if e.LoadFailed? then Failure(e.beanClassName)
      else match VOViewSql(cat, e.name)
        case Failure(m) => Failure(m)
        case Success(p) => Success(prev.value + p)
  }

  /** The handler fails exactly when some scanned class fails to load, is not an `@Entity`, or
      is an entity without `@EO`; then no file is written. */
  lemma {:induction false} ViewFileFailsIff(cat: Catalog, scan: seq<ScanEntry>)
    requires WellFormed(cat) && ScanIn(cat, scan)
    ensures ViewFile(cat, scan).Failure? <==>
      exists i :: 0 <= i < |scan| && (scan[i].LoadFailed? || !cat[scan[i].name].isEntity || cat[scan[i].name].eo.None?)
  {
    if scan != [] {
      var k := |scan| - 1;
      var pre := scan[..k];
      ScanInPrefix(cat, scan, k);
      ViewFileFailsIff(cat, pre);
      if exists i :: 0 <= i < |pre| && (pre[i].LoadFailed? || !cat[pre[i].name].isEntity || cat[pre[i].name].eo.None?) {
        var i :| 0 <= i < |pre| && (pre[i].LoadFailed? || !cat[pre[i].name].isEntity || cat[pre[i].name].eo.None?);
        assert pre[i] == scan[i];
      }
      if exists i :: 0 <= i < |scan| && (scan[i].LoadFailed? || !cat[scan[i].name].isEntity || cat[scan[i].name].eo.None?) {
        var i :| 0 <= i < |scan| && (scan[i].LoadFailed? || !cat[scan[i].name].isEntity || cat[scan[i].name].eo.None?);
        if i < k {
          assert pre[i] == scan[i];
        }
      }
    }
  }

  /** One more scanned class, after a successful prefix. */
  lemma ViewFileStep(cat: Catalog, scan: seq<ScanEntry>, i: nat, p: seq<string>)
    requires WellFormed(cat) && ScanIn(cat, scan) && i < |scan|
    requires ScanIn(cat, scan[..i]) && ViewFile(cat, scan[..i]) == Success(p)
    ensures ScanIn(cat, scan[..i + 1])
    ensures ViewFile(cat, scan[..i + 1]) ==
      if scan[i].LoadFailed? then Failure(scan[i].beanClassName)
      else match VOViewSql(cat, scan[i].name)
        case Failure(m) => Failure(m)
        case Success(x) => Success(p + x)
  {
    ScanInPrefix(cat, scan, i + 1);
    assert scan[..i + 1][..i] == scan[..i];
  }

  /** A scanned class without `@EO` (a `@Component`, `@Service` or `@Repository` the default
      filters let through) fails the handler, unless it has already failed: with the `@EO`
      message when it is not an `@Entity`, with a `NullPointerException` when it is. */
  lemma ScannedClassWithoutEoFails(cat: Catalog, scan: seq<ScanEntry>, q: string)
    requires WellFormed(cat) && ScanIn(cat, scan) && q in cat && cat[q].eo.None?
    ensures ScanIn(cat, scan + [Loaded(q)])
    ensures ViewFile(cat, scan + [Loaded(q)]) ==
      if ViewFile(cat, scan).Failure? then ViewFile(cat, scan)
      else if !cat[q].isEntity then Failure(NotEntityError(q))
      else Failure(MissingEoError)
  {
    var s := scan + [Loaded(q)];
    assert ScanIn(cat, s) by {
      forall i | 0 <= i < |s| && s[i].Loaded? ensures s[i].name in cat {
        if i < |scan| {
          assert s[i] == scan[i];
        }
      }
    }
    assert s[..|scan|] == scan;
  }

  /** An entity with `needView = false` leaves the file as it was. */
  lemma NoViewAddsNothing(cat: Catalog, scan: seq<ScanEntry>, q: string)
    requires WellFormed(cat) && ScanIn(cat, scan) && q in cat && cat[q].eo.Some?
    requires cat[q].isEntity && !cat[q].eo.value.needView
    ensures ScanIn(cat, scan + [Loaded(q)])
    ensures ViewFile(cat, scan + [Loaded(q)]) == ViewFile(cat, scan)
  {
    var s := scan + [Loaded(q)];
    assert ScanIn(cat, s) by {
      forall i | 0 <= i < |s| && s[i].Loaded? ensures s[i].name in cat {
        if i < |scan| {
          assert s[i] == scan[i];
        }
      }
    }
    assert s[..|scan|] == scan;
    assert VOViewSql(cat, q) == Success([]);
    if ViewFile(cat, scan).Success? {
      assert ViewFile(cat, scan).value + [] == ViewFile(cat, scan).value;
    }
  }

  /** `handle(APIGenerateSqlVOViewMsg)`: the statements of every scanned class, in scan order,
      or the first error, which aborts before the output directory is touched. */
  method HandleGenerateSqlVOView(cat: Catalog, scan: seq<ScanEntry>) returns (r: Result<string>)
    requires WellFormed(cat) && ScanIn(cat, scan)
    ensures match ViewFile(cat, scan)
      case Failure(e) => r == Failure(e)
      case Success(p) => r == Success(Concat(p))
  {
    var sb := new TextBuffer();
    var i := 0;
    ScanInPrefix(cat, scan, 0);
    while i < |scan|
      invariant 0 <= i <= |scan| && ScanIn(cat, scan[..i])
      invariant ViewFile(cat, scan[..i]) == Success(sb.pieces)
    {
      ViewFileStep(cat, scan, i, sb.pieces);
      var e := scan[i];
      if e.LoadFailed? {
        FailureStays(cat, scan, i + 1, e.beanClassName);
        return Failure(e.beanClassName);
      }
      var error := GenerateVOViewSql(sb, cat, e.name);
      if error.Some? {
        FailureStays(cat, scan, i + 1, error.value);
        return Failure(error.value);
      }
      i := i + 1;
    }
    assert scan[..i] == scan;
    r := Success(sb.ToString());
  }

  /** Once the handler has failed, later classes change nothing. */
  lemma {:induction false} FailureStays(cat: Catalog, scan: seq<ScanEntry>, k: nat, e: string)
    requires WellFormed(cat) && ScanIn(cat, scan) && k <= |scan|
    requires ScanIn(cat, scan[..k]) && ViewFile(cat, scan[..k]) == Failure(e)
    ensures ViewFile(cat, scan) == Failure(e)
    decreases |scan| - k
  {
    if k < |scan| {
      assert scan[..k + 1][..k] == scan[..k];
      ScanInPrefix(cat, scan, k + 1);
      FailureStays(cat, scan, k + 1, e);
    } else {
      assert scan[..k] == scan;
    }
  }
}
