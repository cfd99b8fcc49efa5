/** Two message classes of the repository, as descriptors, and what the generators make of
    them: `APIBackupDataVolumeMsg` (a required `uuid` and an optional `backupStorageUuid`) and
    `APIDeleteSecurityGroupMsg` (a subclass of `APIDeleteMessage`). */
module Fixtures {
  import opened Wrappers
  import opened Text
  import opened Catalog
  import opened Emission
  import opened PythonText
  import opened PythonPasses
  import opened Groovy

  /** `@APIParam(resourceType = VolumeVO.class) private String uuid`: `required` defaults to true. */
  const VolumeUuidField := FieldDesc("uuid", Scalar, Some(ApiParam(true, [])), false, false, false, false)

  /** `@APIParam(required = false, resourceType = BackupStorageVO.class) private String backupStorageUuid`. */
  const BackupStorageUuidField := FieldDesc("backupStorageUuid", Scalar, Some(ApiParam(false, [])), false, false, false, false)

  const BackupDataVolumeMsg := TypeDesc(
    "org.zstack.header.volume.APIBackupDataVolumeMsg", "APIBackupDataVolumeMsg", Some(ApiMessageClass), 1,
    [VolumeUuidField, BackupStorageUuidField],
    false, false, true, false, false, false, false, false, None)

  /** In the Python message class, `uuid` gets the mandatory comment and `NotNoneField()`;
      `backupStorageUuid` gets no comment and `None`; the class has no `pass` line since it has
      a superclass. */
  lemma BackupDataVolumePythonFields()
    ensures FieldPieces(VolumeUuidField) == [MandatoryComment, Assignment("uuid", "NotNoneField()")]
    ensures FieldPieces(BackupStorageUuidField) == [Assignment("backupStorageUuid", "None")]
    ensures MessageClassPieces(BackupDataVolumeMsg, Some("APIMessage")) ==
      MessageHeader(BackupDataVolumeMsg, Some("APIMessage")) +
      [MandatoryComment, Assignment("uuid", "NotNoneField()"), Assignment("backupStorageUuid", "None"), "\n\n"]
  {
    var a, b := VolumeUuidField, BackupStorageUuidField;
    ConcatMapSnoc(FieldPieces, [], a);
    ConcatMapSnoc(FieldPieces, [a], b);
    assert [] + [a] == [a] && [a] + [b] == BackupDataVolumeMsg.fields;
    assert [] + FieldPieces(a) == FieldPieces(a);
  }

  /** In the Groovy stub, `uuid` is a `NotNullObject` and `backupStorageUuid` a bare `def`. */
  lemma BackupDataVolumeStubFields()
    ensures StubFields(BackupDataVolumeMsg.fields) ==
      [Line(4, "def " + VolumeUuidField.name + " = new NotNullObject()"), Line(4, "def " + BackupStorageUuidField.name)]
  {
    var fs := BackupDataVolumeMsg.fields;
    assert fs[..1] == [VolumeUuidField] && [VolumeUuidField][..0] == [];
    assert StubFields([VolumeUuidField]) == [] + [StubFieldLine(VolumeUuidField)];
  }

  /** A subclass of `APIDeleteMessage` met by the message pass: the base section has already
      written and memoised `APIDeleteMessage`, so the subclass is written alone, its class line
      naming `APIDeleteMessage` as its superclass. */
  lemma DeleteMessageSubclassWrittenAlone(cat: Catalog, memo: set<string>, q: string)
    requires BaseClassesPresent(cat) && q in cat && cat[q].parent == Some(ApiDeleteMessageClass)
    ensures EmitOrder(cat, BaseSection(cat, memo).memo, q) == [q]
    ensures ParentSimpleName(cat, q) == Some(cat[ApiDeleteMessageClass].simpleName)
  {
    assert cat[ApiDeleteMessageClass].simpleName in BaseSection(cat, memo).memo;
  }

  const DeleteMessage := TypeDesc(
    ApiDeleteMessageClass, "APIDeleteMessage", Some(ApiMessageClass), 1, [],
    true, false, true, false, false, false, false, false, None)

  const DeleteSecurityGroupMsg := TypeDesc(
    "org.zstack.network.securitygroup.APIDeleteSecurityGroupMsg", "APIDeleteSecurityGroupMsg",
    Some(ApiDeleteMessageClass), 2,
    [FieldDesc("uuid", Scalar, Some(ApiParam(true, [])), false, false, false, false)],
    false, false, true, false, false, false, false, false, None)

  /** `APIDeleteSecurityGroupMsg` is written alone, under `APIDeleteMessage`. */
  lemma DeleteSecurityGroupWrittenAlone(cat: Catalog, memo: set<string>)
    requires BaseClassesPresent(cat) && cat[ApiDeleteMessageClass] == DeleteMessage
    requires DeleteSecurityGroupMsg.name in cat && cat[DeleteSecurityGroupMsg.name] == DeleteSecurityGroupMsg
    ensures EmitOrder(cat, BaseSection(cat, memo).memo, DeleteSecurityGroupMsg.name) == [DeleteSecurityGroupMsg.name]
    ensures ParentSimpleName(cat, DeleteSecurityGroupMsg.name) == Some("APIDeleteMessage")
  {
    DeleteMessageSubclassWrittenAlone(cat, memo, DeleteSecurityGroupMsg.name);
  }

  /** Two concrete API messages, one extending the other. `Widget` stands for a message whose
      superclass is already written (as `APIMessage` is after the base section), so it has
      none here. */
  const Widget := TypeDesc(
    "org.example.Widget", "Widget", None, 0, [],
    false, false, true, false, false, false, false, false, None)

  const FancyWidget := TypeDesc(
    "org.example.FancyWidget", "FancyWidget", Some("org.example.Widget"), 1, [],
    false, false, true, false, false, false, false, false, None)

  const WidgetCatalog: Catalog := map[Widget.name := Widget, FancyWidget.name := FancyWidget]

  lemma WidgetCatalogWellFormed()
    ensures WellFormed(WidgetCatalog)
    ensures ScanIn(WidgetCatalog, [Loaded(FancyWidget.name), Loaded(Widget.name)])
    ensures ScanIn(WidgetCatalog, [Loaded(Widget.name), Loaded(FancyWidget.name)])
  {
  }

  /** The names the message pass collects depend on the scan order. Met first, the subclass
      writes `Widget` as its superclass; `Widget` is then skipped as memoised and left out of
      `api_names`. */
  lemma SubclassFirstDropsWidget()
    ensures WellFormed(WidgetCatalog) && ScanIn(WidgetCatalog, [Loaded(FancyWidget.name), Loaded(Widget.name)])
    ensures MessagePass(WidgetCatalog, {}, [Loaded(FancyWidget.name), Loaded(Widget.name)]).names ==
      [FancyWidget.simpleName]
  {
    WidgetCatalogWellFormed();
    var cat := WidgetCatalog;
    var w, f := Loaded(Widget.name), Loaded(FancyWidget.name);
    var fw := [f, w];
    assert fw[..0] == [] && fw[..1] == [f] && fw[..2] == fw;
    assert EmitOrder(cat, {}, FancyWidget.name) == [Widget.name, FancyWidget.name];
    MessagePassEmit(cat, {}, fw, 0);
    SimpleNamesIn(cat, [Widget.name, FancyWidget.name]);
    assert SimpleNameList(cat, [Widget.name, FancyWidget.name])[0] == Widget.simpleName;
    MessagePassSkip(cat, {}, fw, 1);
  }

  /** A scan holding only `Widget` writes it and collects its name. */
  lemma WidgetAloneCollected()
    ensures WellFormed(WidgetCatalog) && ScanIn(WidgetCatalog, [Loaded(Widget.name)])
    ensures MessagePass(WidgetCatalog, {}, [Loaded(Widget.name)]).memo == {Widget.simpleName}
    ensures MessagePass(WidgetCatalog, {}, [Loaded(Widget.name)]).names == [Widget.simpleName]
  {
    WidgetCatalogWellFormed();
    WidgetWrittenAlone();
    var ws := [Loaded(Widget.name)];
    assert ws[..0] == [] && ws[..1] == ws;
    MessagePassEmit(WidgetCatalog, {}, ws, 0);
  }

  /** `Widget` has no superclass, so it is written alone. */
  lemma WidgetWrittenAlone()
    ensures WellFormed(WidgetCatalog) && Widget.name in WidgetCatalog
    ensures EmitOrder(WidgetCatalog, {}, Widget.name) == [Widget.name]
    ensures SimpleNames(WidgetCatalog, [Widget.name]) == {Widget.simpleName}
  {
    WidgetCatalogWellFormed();
    SimpleNamesAppend(WidgetCatalog, [], Widget.name);
    assert [] + [Widget.name] == [Widget.name];
  }

  /** Met first, `Widget` is written and collected, then `FancyWidget`. */
  lemma SuperclassFirstKeepsBoth()
    ensures WellFormed(WidgetCatalog) && ScanIn(WidgetCatalog, [Loaded(Widget.name), Loaded(FancyWidget.name)])
    ensures MessagePass(WidgetCatalog, {}, [Loaded(Widget.name), Loaded(FancyWidget.name)]).names ==
      [Widget.simpleName, FancyWidget.simpleName]
  {
    WidgetAloneCollected();
    var cat := WidgetCatalog;
    var w, f := Loaded(Widget.name), Loaded(FancyWidget.name);
    var wf := [w, f];
    assert wf[..1] == [w] && wf[..2] == wf;
    var memo1 := MessagePass(cat, {}, [w]).memo;
    assert EmitOrder(cat, memo1, FancyWidget.name) == [FancyWidget.name];
    MessagePassEmit(cat, {}, wf, 1);
  }
}
