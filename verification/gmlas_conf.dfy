/**
 `GMLASConfiguration`: the settings of the GMLAS driver, their constructor
 values, how `Load` binds a parsed configuration document onto them, and how
 `Finalize` fills in the schema cache directory.
 */
module GmlasConf {
  import opened Text
  import opened Decimal
  import opened GmlasCommon
  import opened XPathSubset
  import opened IgnoredXPaths
  import opened XLinkConf

  const AllowRemoteSchemaDownloadDefault := true
  const AlwaysGenerateOgrIdDefault := false
  const RemoveUnusedLayersDefault := false
  const RemoveUnusedFieldsDefault := false
  const UseArraysDefault := true
  const IncludeGeometryXmlDefault := false
  const InstantiateGmlFeaturesOnlyDefault := true
  const AllowXsdCacheDefault := true
  const ValidateDefault := false
  const FailIfValidationErrorDefault := false
  const ExposeMetadataLayersDefault := false
  const WarnIfExcludedXPathFoundDefault := true
  const CaseInsensitiveIdentifierDefault := true
  const PgIdentifierLaunderingDefault := true

  datatype GmlasConfig = GmlasConfig(
    allowRemoteSchemaDownload: bool,
    alwaysGenerateOgrId: bool,
    removeUnusedLayers: bool,
    removeUnusedFields: bool,
    useArrays: bool,
    includeGeometryXml: bool,
    instantiateGmlFeaturesOnly: bool,
    identifierMaxLength: int,
    caseInsensitiveIdentifier: bool,
    pgIdentifierLaundering: bool,
    allowXsdCache: bool,
    xsdCacheDirectory: string,
    validate: bool,
    failIfValidationError: bool,
    exposeMetadataLayers: bool,
    prefixToUri: map<string, string>,
    ignoredXPaths: seq<string>,
    ignoredXPathWarn: map<string, bool>,
    xlinkResolution: XLinkResolutionConf)

  /**
   The constructor's values. Every flag starts at its own default except
   `exposeMetadataLayers`, which the constructor takes from the default of
   the warn-on-ignored-XPath flag, and so starts true.
   */
  function DefaultConfiguration(maxFileSizeDefault: int): (c: GmlasConfig)
    ensures c.allowRemoteSchemaDownload && !c.alwaysGenerateOgrId && !c.removeUnusedLayers
    ensures !c.removeUnusedFields && c.useArrays && !c.includeGeometryXml && c.instantiateGmlFeaturesOnly
    ensures c.identifierMaxLength == 0 && c.caseInsensitiveIdentifier && c.pgIdentifierLaundering
    ensures c.allowXsdCache && c.xsdCacheDirectory == "" && !c.validate && !c.failIfValidationError
    ensures c.exposeMetadataLayers == WarnIfExcludedXPathFoundDefault
    ensures c.exposeMetadataLayers != ExposeMetadataLayersDefault
    ensures c.prefixToUri == map[] && c.ignoredXPaths == [] && c.ignoredXPathWarn == map[]
    ensures c.xlinkResolution == DefaultXLinkConf(maxFileSizeDefault)
  {
    GmlasConfig(
      AllowRemoteSchemaDownloadDefault,
      AlwaysGenerateOgrIdDefault,
      RemoveUnusedLayersDefault,
      RemoveUnusedFieldsDefault,
      UseArraysDefault,
      IncludeGeometryXmlDefault,
      InstantiateGmlFeaturesOnlyDefault,
      0,
      CaseInsensitiveIdentifierDefault,
      PgIdentifierLaunderingDefault,
      AllowXsdCacheDefault,
      "",
      ValidateDefault,
      FailIfValidationErrorDefault,
      WarnIfExcludedXPathFoundDefault,
      map[], [], map[],
      DefaultXLinkConf(maxFileSizeDefault))
  }

  /** A configuration and the warnings emitted while producing it. */
  datatype Finalized = Finalized(config: GmlasConfig, warnings: seq<Warning>)

  /** The schema cache directory after `Finalize`, and its warnings. */
  datatype CacheChoice = CacheChoice(directory: string, warnings: seq<Warning>)

  /**
   The rule of `Finalize`: only when the cache is allowed and no directory
   is set is one filled in, `gmlas_xsd_cache` under the base cache
   directory, with a warning when there is no base directory.
   */
  function FillCacheDirectory(allowXsdCache: bool, directory: string, env: Environment, join: Join): (r: CacheChoice)
    ensures !(allowXsdCache && directory == "") ==> r == CacheChoice(directory, [])
    ensures allowXsdCache && directory == "" && GetBaseCacheDirectory(env, join) == "" ==>
              r == CacheChoice("", [NoCacheDirectory])
    ensures allowXsdCache && directory == "" && GetBaseCacheDirectory(env, join) != "" ==>
              r == CacheChoice(join(GetBaseCacheDirectory(env, join), "gmlas_xsd_cache"), [])
  {
    if allowXsdCache && directory == "" then
      var base := GetBaseCacheDirectory(env, join);
      if base == "" then CacheChoice("", [NoCacheDirectory])
      else CacheChoice(join(base, "gmlas_xsd_cache"), [])
    else CacheChoice(directory, [])
  }

  /** `Finalize`: the cache directory rule applied, nothing else changed. */
  function Finalize(c: GmlasConfig, env: Environment, join: Join): (r: Finalized)
    ensures r.config == c.(xsdCacheDirectory := r.config.xsdCacheDirectory)
    ensures r.config.allowXsdCache == c.allowXsdCache
    ensures (r.config.xsdCacheDirectory, r.warnings) ==
            (FillCacheDirectory(c.allowXsdCache, c.xsdCacheDirectory, env, join).directory,
             FillCacheDirectory(c.allowXsdCache, c.xsdCacheDirectory, env, join).warnings)
  {
    var choice := FillCacheDirectory(c.allowXsdCache, c.xsdCacheDirectory, env, join);
    Finalized(c.(xsdCacheDirectory := choice.directory), choice.warnings)
  }

  /**
   Finalizing twice gives the configuration finalizing once gives: a
   directory filled in is never replaced, and when none could be filled in
   the second attempt fails the same way.
   */
  lemma FinalizeIdempotent(c: GmlasConfig, env: Environment, join: Join)
    ensures Finalize(Finalize(c, env, join).config, env, join).config == Finalize(c, env, join).config
  {
  }

  /** Keys of the settings `Load` reads from the root, as the XML search is given them. */
  const KeyAllowRemoteSchemaDownload := "=Configuration.AllowRemoteSchemaDownload"
  const KeySchemaCacheEnabled := "=Configuration.SchemaCache.enabled"
  const KeySchemaCacheDirectory := "=Configuration.SchemaCache.Directory"
  const KeyValidationEnabled := "=Configuration.Validation.enabled"
  const KeyValidationFailIfError := "=Configuration.Validation.FailIfError"
  const KeyExposeMetadataLayers := "=Configuration.ExposeMetadataLayers"
  const KeyAlwaysGenerateOgrId := "=Configuration.LayerBuildingRules.AlwaysGenerateOGRId"
  const KeyRemoveUnusedLayers := "=Configuration.LayerBuildingRules.RemoveUnusedLayers"
  const KeyRemoveUnusedFields := "=Configuration.LayerBuildingRules.RemoveUnusedFields"
  const KeyUseArrays := "=Configuration.LayerBuildingRules.UseArrays"
  const KeyIncludeGeometryXml := "=Configuration.LayerBuildingRules.GML.IncludeGeometryXML"
  const KeyInstantiateGmlFeaturesOnly := "=Configuration.LayerBuildingRules.GML.InstantiateGMLFeaturesOnly"
  const KeyIdentifierMaxLength := "=Configuration.LayerBuildingRules.IdentifierMaxLength"
  const KeyCaseInsensitiveIdentifier := "=Configuration.LayerBuildingRules.CaseInsensitiveIdentifier"
  const KeyPgIdentifierLaundering := "=Configuration.LayerBuildingRules.PostgreSQLIdentifierLaundering"

  /**
   The scalar settings read from the root. The cache directory is read only
   when the cache is allowed, and the fail-on-error flag only when validation
   is on: otherwise both keep their previous values.
   */
  function BindScalars(c: GmlasConfig, root: XmlNode, testBool: TestBool): (r: GmlasConfig)
    ensures r.prefixToUri == c.prefixToUri && r.ignoredXPaths == c.ignoredXPaths
    ensures r.ignoredXPathWarn == c.ignoredXPathWarn && r.xlinkResolution == c.xlinkResolution
    ensures r.allowXsdCache ==> r.xsdCacheDirectory == ValueOr(root, KeySchemaCacheDirectory, "")
    ensures !r.allowXsdCache ==> r.xsdCacheDirectory == c.xsdCacheDirectory
    ensures r.validate ==> r.failIfValidationError == XmlBoolValue(root, KeyValidationFailIfError, FailIfValidationErrorDefault, testBool)
    ensures !r.validate ==> r.failIfValidationError == c.failIfValidationError
    ensures r.exposeMetadataLayers == XmlBoolValue(root, KeyExposeMetadataLayers, ExposeMetadataLayersDefault, testBool)
    ensures Value(root, KeyIdentifierMaxLength).None? ==> r.identifierMaxLength == 0
  {
    var allowCache := XmlBoolValue(root, KeySchemaCacheEnabled, AllowXsdCacheDefault, testBool);
    var validate := XmlBoolValue(root, KeyValidationEnabled, ValidateDefault, testBool);
    c.(
      allowRemoteSchemaDownload := XmlBoolValue(root, KeyAllowRemoteSchemaDownload, AllowRemoteSchemaDownloadDefault, testBool),
      allowXsdCache := allowCache,
      xsdCacheDirectory := if allowCache then ValueOr(root, KeySchemaCacheDirectory, "") else c.xsdCacheDirectory,
      validate := validate,
      failIfValidationError :=
        if validate then XmlBoolValue(root, KeyValidationFailIfError, FailIfValidationErrorDefault, testBool)
        else c.failIfValidationError,
      exposeMetadataLayers := XmlBoolValue(root, KeyExposeMetadataLayers, ExposeMetadataLayersDefault, testBool),
      alwaysGenerateOgrId := XmlBoolValue(root, KeyAlwaysGenerateOgrId, AlwaysGenerateOgrIdDefault, testBool),
      removeUnusedLayers := XmlBoolValue(root, KeyRemoveUnusedLayers, RemoveUnusedLayersDefault, testBool),
      removeUnusedFields := XmlBoolValue(root, KeyRemoveUnusedFields, RemoveUnusedFieldsDefault, testBool),
      useArrays := XmlBoolValue(root, KeyUseArrays, UseArraysDefault, testBool),
      includeGeometryXml := XmlBoolValue(root, KeyIncludeGeometryXml, IncludeGeometryXmlDefault, testBool),
      instantiateGmlFeaturesOnly :=
        XmlBoolValue(root, KeyInstantiateGmlFeaturesOnly, InstantiateGmlFeaturesOnlyDefault, testBool),
      identifierMaxLength := IntValueOr(root, KeyIdentifierMaxLength, 0),
      caseInsensitiveIdentifier :=
        XmlBoolValue(root, KeyCaseInsensitiveIdentifier, CaseInsensitiveIdentifierDefault, testBool),
      pgIdentifierLaundering := XmlBoolValue(root, KeyPgIdentifierLaundering, PgIdentifierLaunderingDefault, testBool))
  }

  /**
   The `IgnoredXPaths` element: its namespace bindings go into the prefix
   map, its valid paths are appended with their flags, and the warnings of
   both loops are returned in the order emitted.
   */
  function BindIgnoredXPaths(c: GmlasConfig, ignored: XmlNode, find: FindNode, testBool: TestBool): (r: Finalized)
    ensures r.config == c.(prefixToUri := r.config.prefixToUri, ignoredXPaths := r.config.ignoredXPaths,
                           ignoredXPathWarn := r.config.ignoredXPathWarn)
    ensures find(ignored, "Namespaces").None? ==> r.config.prefixToUri == c.prefixToUri
    ensures r.config.ignoredXPaths == c.ignoredXPaths + ValidPaths(XPathEntries(ignored))
    ensures find(ignored, "Namespaces").Some? ==>
              r.config.prefixToUri == BindPrefixes(NamespaceBindings(find(ignored, "Namespaces").value), c.prefixToUri).prefixes
    ensures r.config.ignoredXPathWarn ==
              CollectXPaths(XPathEntries(ignored), GroupWarnFlag(ignored, testBool), testBool,
                            Ignored(c.ignoredXPaths, c.ignoredXPathWarn)).ignored.warn
    ensures find(ignored, "Namespaces").None? ==> r.warnings == InvalidPathWarnings(XPathEntries(ignored))
    ensures find(ignored, "Namespaces").Some? ==>
              r.warnings == BindPrefixes(NamespaceBindings(find(ignored, "Namespaces").value), c.prefixToUri).warnings
                            + InvalidPathWarnings(XPathEntries(ignored))
  {
    var bound := match find(ignored, "Namespaces")
      case Some(ns) => BindPrefixes(NamespaceBindings(ns), c.prefixToUri)
      case None => Bound(c.prefixToUri, []);
    var collected := CollectXPaths(XPathEntries(ignored), GroupWarnFlag(ignored, testBool), testBool,
                                   Ignored(c.ignoredXPaths, c.ignoredXPathWarn));
    Finalized(
      c.(prefixToUri := bound.prefixes,
         ignoredXPaths := collected.ignored.paths,
         ignoredXPathWarn := collected.ignored.warn),
      bound.warnings + collected.warnings)
  }

  /** The settings `BindScalars` reads agree, the cache directory aside. */
  predicate SameScalars(a: GmlasConfig, b: GmlasConfig) {
    && a.allowRemoteSchemaDownload == b.allowRemoteSchemaDownload
    && a.alwaysGenerateOgrId == b.alwaysGenerateOgrId
    && a.removeUnusedLayers == b.removeUnusedLayers
    && a.removeUnusedFields == b.removeUnusedFields
    && a.useArrays == b.useArrays
    && a.includeGeometryXml == b.includeGeometryXml
    && a.instantiateGmlFeaturesOnly == b.instantiateGmlFeaturesOnly
    && a.identifierMaxLength == b.identifierMaxLength
    && a.caseInsensitiveIdentifier == b.caseInsensitiveIdentifier
    && a.pgIdentifierLaundering == b.pgIdentifierLaundering
    && a.allowXsdCache == b.allowXsdCache
    && a.validate == b.validate
    && a.failIfValidationError == b.failIfValidationError
    && a.exposeMetadataLayers == b.exposeMetadataLayers
  }

  /**
   The `IgnoredXPaths` section when the document has one: bound as
   `BindIgnoredXPaths` says; without it nothing changes and nothing is
   reported.
   */
  function IgnoredSection(c: GmlasConfig, root: XmlNode, find: FindNode, testBool: TestBool): (r: Finalized)
    ensures r.config.xlinkResolution == c.xlinkResolution
    ensures SameScalars(r.config, c) && r.config.xsdCacheDirectory == c.xsdCacheDirectory
    ensures find(root, "=Configuration.IgnoredXPaths").None? ==> r == Finalized(c, [])
    ensures find(root, "=Configuration.IgnoredXPaths").Some? ==>
              var ig := find(root, "=Configuration.IgnoredXPaths").value;
              && r.config.ignoredXPaths == c.ignoredXPaths + ValidPaths(XPathEntries(ig))
              && r.config.ignoredXPathWarn ==
                 CollectXPaths(XPathEntries(ig), GroupWarnFlag(ig, testBool), testBool,
                               Ignored(c.ignoredXPaths, c.ignoredXPathWarn)).ignored.warn
              && (find(ig, "Namespaces").Some? ==>
                    r.config.prefixToUri == BindPrefixes(NamespaceBindings(find(ig, "Namespaces").value), c.prefixToUri).prefixes)
              && (find(ig, "Namespaces").None? ==> r.config.prefixToUri == c.prefixToUri)
  {
    match find(root, "=Configuration.IgnoredXPaths")
    case Some(ig) => BindIgnoredXPaths(c, ig, find, testBool)
    case None => Finalized(c, [])
  }

  /** The `XLinkResolution` section when the document has one; without it the settings stay. */
  function XLinkSection(x: XLinkResolutionConf, root: XmlNode, env: Environment, join: Join, testBool: TestBool,
                        find: FindNode, maxFileSizeDefault: int): (r: XLinkResolutionConf)
    ensures find(root, "=Configuration.XLinkResolution").None? ==> r == x
    ensures find(root, "=Configuration.XLinkResolution").Some? ==>
              r == LoadXLinkFromXml(x, find(root, "=Configuration.XLinkResolution").value, env, join, testBool,
                                    maxFileSizeDefault)
  {
    match find(root, "=Configuration.XLinkResolution")
    case Some(n) => LoadXLinkFromXml(x, n, env, join, testBool, maxFileSizeDefault)
    case None => x
  }

  /** `Finalize` changes no scalar setting. */
  lemma FinalizeKeepsScalars(c: GmlasConfig, env: Environment, join: Join)
    ensures SameScalars(Finalize(c, env, join).config, c)
  {
    var f := Finalize(c, env, join).config;
    assert f == c.(xsdCacheDirectory := f.xsdCacheDirectory);
  }

  lemma SameScalarsTransitive(a: GmlasConfig, b: GmlasConfig, c: GmlasConfig)
    requires SameScalars(a, b) && SameScalars(b, c)
    ensures SameScalars(a, c)
  {
  }

  /**
   A parsed document bound onto `c`, before `Finalize`: the scalar settings,
   then the two sections.
   */
  function BindDocument(c: GmlasConfig, root: XmlNode, env: Environment, join: Join, testBool: TestBool,
                        find: FindNode, maxFileSizeDefault: int): Finalized
  {
    var ignored := IgnoredSection(BindScalars(c, root, testBool), root, find, testBool);
    Finalized(ignored.config.(xlinkResolution :=
      XLinkSection(ignored.config.xlinkResolution, root, env, join, testBool, find, maxFileSizeDefault)),
      ignored.warnings)
  }

  /** What `Load` returns, and the configuration and warnings it leaves. */
  datatype Loaded = Loaded(ok: bool, config: GmlasConfig, warnings: seq<Warning>)

  /**
   `Load` once the document has been parsed (`None` when it could not be):
   the scalar settings, then the `IgnoredXPaths` and `XLinkResolution`
   sections when present, then `Finalize`. An unparsable document is only
   finalized and reported as a failure.
   */
  function Load(c: GmlasConfig, doc: Option<XmlNode>, env: Environment, join: Join, testBool: TestBool,
                find: FindNode, maxFileSizeDefault: int): (r: Loaded)
    ensures r.ok <==> doc.Some?
    ensures doc.None? ==> r.config == Finalize(c, env, join).config
    ensures doc.Some? ==>
              r.config.exposeMetadataLayers ==
              XmlBoolValue(doc.value, KeyExposeMetadataLayers, ExposeMetadataLayersDefault, testBool)
    ensures doc.Some? && find(doc.value, "=Configuration.IgnoredXPaths").None? ==>
              r.config.prefixToUri == c.prefixToUri && r.config.ignoredXPaths == c.ignoredXPaths &&
              r.config.ignoredXPathWarn == c.ignoredXPathWarn
    ensures doc.Some? && find(doc.value, "=Configuration.XLinkResolution").None? ==>
              r.config.xlinkResolution == c.xlinkResolution
  {
    match doc
    case None =>
      var f := Finalize(c, env, join);
      Loaded(false, f.config, f.warnings)
    case Some(root) =>
      var bound := BindDocument(c, root, env, join, testBool, find, maxFileSizeDefault);
      var f := Finalize(bound.config, env, join);
      Loaded(true, f.config, bound.warnings + f.warnings)
  }

  lemma BindDocumentScalars(c: GmlasConfig, root: XmlNode, env: Environment, join: Join, testBool: TestBool,
                            find: FindNode, maxFileSizeDefault: int)
    ensures SameScalars(BindDocument(c, root, env, join, testBool, find, maxFileSizeDefault).config,
                        BindScalars(c, root, testBool))
    ensures BindDocument(c, root, env, join, testBool, find, maxFileSizeDefault).config.xsdCacheDirectory ==
              BindScalars(c, root, testBool).xsdCacheDirectory
  {
    var bound := BindDocument(c, root, env, join, testBool, find, maxFileSizeDefault);
    var ignored := IgnoredSection(BindScalars(c, root, testBool), root, find, testBool);
    assert SameScalars(bound.config, ignored.config);
    SameScalarsTransitive(bound.config, ignored.config, BindScalars(c, root, testBool));
  }

  /**
   With a document, every scalar setting is the one `BindScalars` reads,
   and the schema cache directory is then filled in as `Finalize` does.
   */
  lemma LoadReadsScalars(c: GmlasConfig, root: XmlNode, env: Environment, join: Join, testBool: TestBool,
                         find: FindNode, maxFileSizeDefault: int)
    ensures SameScalars(Load(c, Some(root), env, join, testBool, find, maxFileSizeDefault).config,
                        BindScalars(c, root, testBool))
    ensures Load(c, Some(root), env, join, testBool, find, maxFileSizeDefault).config.xsdCacheDirectory ==
              FillCacheDirectory(BindScalars(c, root, testBool).allowXsdCache,
                                 BindScalars(c, root, testBool).xsdCacheDirectory, env, join).directory
  {
    var bound := BindDocument(c, root, env, join, testBool, find, maxFileSizeDefault).config;
    BindDocumentScalars(c, root, env, join, testBool, find, maxFileSizeDefault);
    var f := Finalize(bound, env, join);
    assert Load(c, Some(root), env, join, testBool, find, maxFileSizeDefault).config == f.config;
    FinalizeKeepsScalars(bound, env, join);
    SameScalarsTransitive(f.config, bound, BindScalars(c, root, testBool));
  }

  /** With a document, the XLink settings are those its `XLinkResolution` section gives. */
  lemma LoadReadsXLink(c: GmlasConfig, root: XmlNode, env: Environment, join: Join, testBool: TestBool,
                       find: FindNode, maxFileSizeDefault: int)
    ensures Load(c, Some(root), env, join, testBool, find, maxFileSizeDefault).config.xlinkResolution ==
              XLinkSection(c.xlinkResolution, root, env, join, testBool, find, maxFileSizeDefault)
  {
  }

  /**
   With a document, the prefixes, the ignored paths and their flags are
   those its `IgnoredXPaths` section gives, and its warnings come first.
   */
  lemma LoadReadsIgnoredXPaths(c: GmlasConfig, root: XmlNode, env: Environment, join: Join, testBool: TestBool,
                               find: FindNode, maxFileSizeDefault: int)
    ensures var r := Load(c, Some(root), env, join, testBool, find, maxFileSizeDefault);
            var ig := IgnoredSection(BindScalars(c, root, testBool), root, find, testBool);
            && r.config.prefixToUri == ig.config.prefixToUri
            && r.config.ignoredXPaths == ig.config.ignoredXPaths
            && r.config.ignoredXPathWarn == ig.config.ignoredXPathWarn
            && r.warnings[..|ig.warnings|] == ig.warnings
  {
    var bound := BindDocument(c, root, env, join, testBool, find, maxFileSizeDefault);
    var f := Finalize(bound.config, env, join);
    assert (bound.warnings + f.warnings)[..|bound.warnings|] == bound.warnings;
  }

  /**
   Loading a document whose `IgnoredXPaths` section has `Namespaces`: a
   prefix the configuration already maps keeps its URI; a new prefix is
   mapped exactly when a usable `Namespace` names it, and then to the URI of
   the first one that does.
   */
  lemma LoadFirstBindingWins(c: GmlasConfig, root: XmlNode, env: Environment, join: Join, testBool: TestBool,
                             find: FindNode, maxFileSizeDefault: int, p: string)
    requires find(root, "=Configuration.IgnoredXPaths").Some?
    requires find(find(root, "=Configuration.IgnoredXPaths").value, "Namespaces").Some?
    ensures var bs := NamespaceBindings(find(find(root, "=Configuration.IgnoredXPaths").value, "Namespaces").value);
            var m := Load(c, Some(root), env, join, testBool, find, maxFileSizeDefault).config.prefixToUri;
            && (p in c.prefixToUri ==> p in m && m[p] == c.prefixToUri[p])
            && (p !in c.prefixToUri ==> (p in m <==> IsBound(bs, p)))
            && (p !in c.prefixToUri && IsBound(bs, p) ==> exists k :: IsFirstBinding(bs, p, k) && m[p] == bs[k].uri)
  {
    var bs := NamespaceBindings(find(find(root, "=Configuration.IgnoredXPaths").value, "Namespaces").value);
    LoadReadsIgnoredXPaths(c, root, env, join, testBool, find, maxFileSizeDefault);
    FirstBindingWins(bs, BindScalars(c, root, testBool).prefixToUri, p);
  }

  /**
   Loading a document whose `IgnoredXPaths` section lists a valid path more
   than once: the path's flag is that of its last `XPath` entry.
   */
  lemma LoadLastFlagWins(c: GmlasConfig, root: XmlNode, env: Environment, join: Join, testBool: TestBool,
                         find: FindNode, maxFileSizeDefault: int, k: nat)
    requires find(root, "=Configuration.IgnoredXPaths").Some?
    requires var es := XPathEntries(find(root, "=Configuration.IgnoredXPaths").value);
             k < |es| && IsValidXPath(OwnText(es[k])) && forall j :: k < j < |es| ==> OwnText(es[j]) != OwnText(es[k])
    ensures var ig := find(root, "=Configuration.IgnoredXPaths").value;
            var es := XPathEntries(ig);
            var w := Load(c, Some(root), env, join, testBool, find, maxFileSizeDefault).config.ignoredXPathWarn;
            OwnText(es[k]) in w && w[OwnText(es[k])] == WarnFlag(es[k], GroupWarnFlag(ig, testBool), testBool)
  {
    var ig := find(root, "=Configuration.IgnoredXPaths").value;
    var s := BindScalars(c, root, testBool);
    LoadReadsIgnoredXPaths(c, root, env, join, testBool, find, maxFileSizeDefault);
    LastFlagWins(XPathEntries(ig), GroupWarnFlag(ig, testBool), testBool, Ignored(s.ignoredXPaths, s.ignoredXPathWarn), k);
  }

  /**
   The constructor and `Load` disagree on `exposeMetadataLayers`: a fresh
   configuration says true, but loading a document that does not mention
   the setting turns it false, while every other flag `Load` reads keeps
   its constructor value when its key is absent.
   */
  lemma ExposeMetadataLayersDefaultsDiffer(root: XmlNode, env: Environment, join: Join, testBool: TestBool,
                                          find: FindNode, maxFileSizeDefault: int)
    requires root.Element? && root.values == map[]
    ensures DefaultConfiguration(maxFileSizeDefault).exposeMetadataLayers
    ensures !Load(DefaultConfiguration(maxFileSizeDefault), Some(root), env, join, testBool, find, maxFileSizeDefault)
              .config.exposeMetadataLayers
  {
    var d := DefaultConfiguration(maxFileSizeDefault);
    assert BindScalars(d, root, testBool).exposeMetadataLayers == ExposeMetadataLayersDefault;
  }

  /**
   Every other setting `Load` reads from the root keeps its constructor
   value when the document does not mention it.
   */
  lemma AbsentSettingsKeepConstructorValues(root: XmlNode, testBool: TestBool, maxFileSizeDefault: int)
    requires root.Element? && root.values == map[]
    ensures var d := DefaultConfiguration(maxFileSizeDefault);
            BindScalars(d, root, testBool) == d.(exposeMetadataLayers := false)
  {
    var d := DefaultConfiguration(maxFileSizeDefault);
    var s := BindScalars(d, root, testBool);
    assert forall k :: Value(root, k) == None;
    AtoiFormatDecimal(0);
    assert s.identifierMaxLength == 0;
    assert s.allowXsdCache && !s.validate;
  }
}
