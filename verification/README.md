# GDAL: ISO 8211 from XML, and the GMLAS configuration rules

This project models two pieces of GDAL in Dafny and proves properties of the
models.

**`8211createfromxml`** is a command-line tool. It reads an XML dump of an ISO/IEC 8211
file and rebuilds the 8211 file by calling the 8211 library. The model is a
pure function. It maps the tool's arguments and the already parsed XML tree
to the sequence of requests made of the library, and to the reason for an
exit with status 1 when there is one. The requests are:

- `Initialize` with the leader values, followed by `SetFieldControlLength`;
- field definitions with their subfields;
- `Create` of the output;
- records with their raw payloads or subfield setters, each addressed by
  field and subfield occurrence;
- `Close`.

The pure rules inside `main()` are modelled separately:

- argument handling;
- tag-width inference and the leader defaults;
- the structure and type code tables;
- array-descriptor and format-control normalisation;
- the `0x` hex decoder;
- the occurrence counters;
- the subfield-type dispatch.

**The GMLAS driver configuration** (`GMLASConfiguration`) covers:

- the constructor's values;
- how `Load` binds a parsed configuration document onto the settings;
- the XPath subset accepted for ignored paths;
- the namespace prefix map, where the first binding wins;
- the per-path warn flags, where the last one wins;
- how the base cache directory is chosen from the environment;
- how `Finalize` fills in the schema cache directory;
- the XLink resolution settings, including the case-insensitive resolution mode.

Things the code takes from its surroundings are parameters:

- the configuration options and the platform (`Environment`);
- `CPLFormFilename` (a `Join` function);
- `CPLTestBool`;
- the XML library's node search;
- the library's own default values.

`atoi` and `"%d"` are modelled concretely for ASCII text, with unbounded
integers. Characters are classified as in the "C" locale.

Modules, in dependency order:

- `Text`: option/result types, ASCII classes, `EQUAL`, the XML node.
- `Decimal`: `atoi` and `"%d"`.
- `HexLiteral`: the hex decoder.
- `Occurrences`: the occurrence counters.
- `DdfLeader`: tag width and the leader.
- `DdfFieldDefn`: field definitions.
- `DdfRecords`: records and fields.
- `CreateFromXml`: `main()`.
- `XPathSubset`: the XPath validator.
- `GmlasCommon`: the environment, the cache directory and `CPLGetXMLBoolValue`.
- `IgnoredXPaths`: namespaces and ignored paths.
- `XLinkConf`: XLink resolution.
- `GmlasConf`: the configuration object.

## Model

| member | source | states |
|---|---|---|
| Decimal.AtoiFormatDecimal | gdal/frmts/iso8211/8211createfromxml.cpp:116-118 | `atoi` of the `"%d"` text of any integer gives that integer back, so a default passed as text survives unchanged |
| Decimal.IntValueOr | gdal/frmts/iso8211/8211createfromxml.cpp:116-118 | `atoi` of a looked-up value with a formatted default: an absent key yields the default integer, a present one the `atoi` of its text |
| HexLiteral.DecodePairs | gdal/frmts/iso8211/8211createfromxml.cpp:235-252 | yields exactly half as many bytes as characters (rounded down), byte i being the value of the pair at 2i, 2i+1 |
| HexLiteral.DecodeLoop | gdal/frmts/iso8211/8211createfromxml.cpp:235-252 | `main()`'s decoding loop over `nDataLen` iterations computes the same bytes as the pair-wise definition |
| HexLiteral.DecodeHexLiteral | gdal/frmts/iso8211/8211createfromxml.cpp:232-252 | a value is a hex literal exactly when it starts with the case-sensitive `0x`; it then decodes to ⌊(len-2)/2⌋ bytes, each `16*hi+lo` mod 256 |
| HexLiteral.DecodeEncode | gdal/frmts/iso8211/8211createfromxml.cpp:239-251 | upper-case hex encoding followed by the decoder gives back the original bytes |
| HexLiteral.HexLiteralRoundTrip | gdal/frmts/iso8211/8211createfromxml.cpp:232-252 | `"0x"` followed by the upper-case hex of any byte string decodes back to that byte string |
| HexLiteral.OddTrailingCharacterDropped | gdal/frmts/iso8211/8211createfromxml.cpp:234-237 | a character after the last complete pair is ignored |
| HexLiteral.DecodeExamples | gdal/frmts/iso8211/8211createfromxml.cpp:239-251 | "0x4142" gives 0x41 0x42; "0x414" drops its last nibble; lower-case "ff" gives 150, not 255; "0X41" is not a literal |
| DdfLeader.FieldDefnTags | gdal/frmts/iso8211/8211createfromxml.cpp:84-87 | one tag per `DDFFieldDefn` child, in document order |
| DdfLeader.WidthScanCharacterised | gdal/frmts/iso8211/8211createfromxml.cpp:80-97 | the width scan fails exactly when a non-empty tag is followed by a tag of another length, an empty one included (leading empty tags are skipped); on success every non-zero length equals the width, and the width is 0 only when all lengths are 0 |
| DdfLeader.InferTagWidth | gdal/frmts/iso8211/8211createfromxml.cpp:79-97 | with no field definitions the inferred tag width is 0 |
| DdfLeader.UniformTagsGiveTheirLength | gdal/frmts/iso8211/8211createfromxml.cpp:80-97 | when every definition's tag has length L, the inferred width is L |
| DdfLeader.FirstCharOr | gdal/frmts/iso8211/8211createfromxml.cpp:108-112 | a leader character is the first character of the attribute when present (NUL for an empty one), the default otherwise |
| DdfLeader.CutToThree | gdal/frmts/iso8211/8211createfromxml.cpp:113-115 | the extended character set is the attribute cut to its first three characters, unchanged when it is already that short |
| DdfLeader.ModuleLeader | gdal/frmts/iso8211/8211createfromxml.cpp:99-129 | an explicit `_sizeFieldTag` replaces the inferred width, otherwise the inferred width is used; the character set is at most three characters; a present, non-empty leader-character attribute (`_inlineCodeExtensionIndicator`, `_versionNumber`, `_appIndicator`, …) gives its first character, and a present size attribute (`_sizeFieldLength`, `_sizeFieldPos`, `_fieldControlLength`) its `atoi` |
| DdfLeader.LeaderDefaults | gdal/frmts/iso8211/8211createfromxml.cpp:99-118 | with none of the leader attributes, the leader is '3','L','E','1',' '," ! ",3,4 with the inferred tag width and the library's field-control length |
| DdfFieldDefn.ParseStructCode | gdal/frmts/iso8211/8211createfromxml.cpp:142-147 | the four structure names map to their own code, case-sensitively; every other string, "" included, gives elementary |
| DdfFieldDefn.ParseTypeCode | gdal/frmts/iso8211/8211createfromxml.cpp:149-157 | the seven type names map to their own code; every other string gives `char_string` |
| DdfFieldDefn.CodeNamesRoundTrip | gdal/frmts/iso8211/8211createfromxml.cpp:142-157 | every structure and type code is read back from its own name |
| DdfFieldDefn.ArrayDescriptor | gdal/frmts/iso8211/8211createfromxml.cpp:163-167 | a vector gets "", an array "*", the other structures keep the XML `arrayDescr` |
| DdfFieldDefn.SubfieldDefns | gdal/frmts/iso8211/8211createfromxml.cpp:175-185 | one subfield (name, format) per `DDFSubfieldDefn` child, in order |
| DdfFieldDefn.TranslateFieldDefn | gdal/frmts/iso8211/8211createfromxml.cpp:140-191 | format controls reach `Create` exactly for an elementary field that has them, yet any `formatControls` present is set again after the subfields whatever the structure; every plan is normalised: a vector has descriptor "", an array "*", and only an elementary field passes format controls to `Create` |
| DdfFieldDefn.FieldDefnRoundTrip | gdal/frmts/iso8211/8211createfromxml.cpp:140-191 | the `DDFFieldDefn` element carrying a normalised plan's values translates back to that very plan, so the normalised plans are exactly what the translation produces |
| Occurrences.NumberIsOccurrenceIndex | gdal/frmts/iso8211/8211createfromxml.cpp:227-228 | the counter map gives the name at position i the number of earlier positions with the same name |
| Occurrences.OccurrencesIncrease | gdal/frmts/iso8211/8211createfromxml.cpp:268-269 | two positions with the same name get different occurrences, the later one a larger one |
| DdfRecords.SubfieldSetter | gdal/frmts/iso8211/8211createfromxml.cpp:270-310 | a setter is made exactly for the float, integer and string types and for a binary value starting with `0x`; a float sets a float subfield from its text, an integer sets the `atoi` of its text, a string its text, a binary value the bytes the hex decoder gives |
| DdfRecords.KeepSomeInOrder | gdal/frmts/iso8211/8211createfromxml.cpp:258-313 | the setters are called in document order, one per subfield that has one: the setter of subfield i comes right after those of the subfields before it |
| DdfRecords.SubfieldCallOccurrences | gdal/frmts/iso8211/8211createfromxml.cpp:259-269 | each setter's occurrence is the number of earlier `DDFSubfield` children of its name in the same field, skipped subfields included; the counters restart for every field |
| DdfRecords.TranslateField | gdal/frmts/iso8211/8211createfromxml.cpp:230-314 | the raw payload path is taken exactly when `value` is present and starts with `0x`, otherwise the subfield setters are used |
| DdfRecords.RawFieldRoundTrip | gdal/frmts/iso8211/8211createfromxml.cpp:231-313 | a field whose `value` is `0x` and the upper-case hex of some bytes writes those bytes; a field with no `value` writes its subfields' setters; a `binary` subfield holding such a literal sets those bytes |
| DdfRecords.RecordSizesOf | gdal/frmts/iso8211/8211createfromxml.cpp:208-210 | each of the record's `_sizeFieldLength`, `_sizeFieldPos` and `_sizeFieldTag`: an absent attribute leaves the record's current size, a present one gives its `atoi` |
| DdfRecords.FirstUnresolved | gdal/frmts/iso8211/8211createfromxml.cpp:215-225 | the first field name that is not among the defined tags, or none exactly when all resolve |
| DdfRecords.TranslateRecord | gdal/frmts/iso8211/8211createfromxml.cpp:203-317 | a record succeeds exactly when every field name is defined, and otherwise fails with the first undefined name; on success field call k is the translation of the k-th `DDFField` child, with the occurrence number of its name among the fields before it |
| DdfRecords.FieldOccurrences | gdal/frmts/iso8211/8211createfromxml.cpp:204-228 | when every field name is defined the record succeeds, and within it the k-th field of a name (from 0) gets field occurrence k; the counters restart for every record |
| CreateFromXml.ParseArguments | gdal/frmts/iso8211/8211createfromxml.cpp:46-63 | one or two arguments are accepted, the first being the input and the second, when present, the output; none or more than two are refused |
| CreateFromXml.StepOf | gdal/frmts/iso8211/8211createfromxml.cpp:134-194 | a `DDFFieldDefn` child defines a field, a `DDFRecord` child is resolved against the tags defined before it, anything else is skipped |
| CreateFromXml.Sequence | gdal/frmts/iso8211/8211createfromxml.cpp:193-324 | the output is created at most once, always with the output path, before any record is written and never again once created; the only failure in the loop is an unresolved field name |
| CreateFromXml.SequenceCreates | gdal/frmts/iso8211/8211createfromxml.cpp:193-201 | the loop creates the output exactly once, with the output path, when it has not yet and some record is reached, even a record whose fields then fail to resolve; otherwise it creates nothing |
| CreateFromXml.FirstFailure | gdal/frmts/iso8211/8211createfromxml.cpp:215-225 | the position of the first record naming an undefined field (the length when none does); every earlier step resolves |
| CreateFromXml.SequenceRequests | gdal/frmts/iso8211/8211createfromxml.cpp:134-324 | the loop defines exactly the definitions and writes exactly the records that precede the first record naming an undefined field, in order; it fails exactly when there is such a record, with its undefined name |
| CreateFromXml.DefinePlansFollow | gdal/frmts/iso8211/8211createfromxml.cpp:134-192 | the definitions a run of children requests are the translations of its `DDFFieldDefn` children, in document order |
| CreateFromXml.RunModuleRequests | gdal/frmts/iso8211/8211createfromxml.cpp:120-328 | `Initialize` and `Close` add no definition and no record to those of the loop, and the failure is the loop's |
| CreateFromXml.FailingRecordExists | gdal/frmts/iso8211/8211createfromxml.cpp:193-225 | the first failing step lies among the children exactly when some `DDFRecord` child names a field not defined before it |
| CreateFromXml.ModuleRequests | gdal/frmts/iso8211/8211createfromxml.cpp:120-328 | the definitions requested are the `DDFFieldDefn` children before the first failing record, in document order; the records written are the translations of the records before it; the run fails exactly when some `DDFRecord` child names a field not defined before it |
| CreateFromXml.Convert | gdal/frmts/iso8211/8211createfromxml.cpp:38-330 | the usage failure happens exactly for a wrong argument count; parse, missing-module and tag-size failures make no request, the last exactly for mixed tag lengths; otherwise the first request is `Initialize` with the leader built from the `DDFModule` attributes and the inferred width, the definitions and records requested are those `ModuleRequests` states, and the tool fails exactly when some record names a field not defined before it; the output is created once, with the second argument (none when absent), exactly when the module has a `DDFRecord` child; a success ends with `Close`; a failure never closes |
| CreateFromXml.RunDocument | gdal/frmts/iso8211/8211createfromxml.cpp:99-330 | once the module and its tag width are known: `Initialize` first with the module's leader, the definitions, records and failure as `ModuleRequests` states, and the output created with the given path exactly when there is a `DDFRecord` child |
| CreateFromXml.ModuleCreates | gdal/frmts/iso8211/8211createfromxml.cpp:193-201 | a module run creates the output once, with the given path, exactly when the module has a `DDFRecord` child, even one whose fields do not resolve |
| CreateFromXml.RunModule | gdal/frmts/iso8211/8211createfromxml.cpp:120-330 | the module is initialised first with the given leader, and closed last exactly when no record failed; `RunModuleRequests` gives its definitions and records |
| CreateFromXml.MixedTagSizesStopEarly | gdal/frmts/iso8211/8211createfromxml.cpp:88-94 | mixed tag lengths stop the tool before any request |
| CreateFromXml.EveryRecordWritten | gdal/frmts/iso8211/8211createfromxml.cpp:193-319 | a loop that does not fail writes exactly one record per `DDFRecord` child |
| XPathSubset.ScanFrom | gdal/ogr/ogrsf_frmts/gmlas/ogrgmlasconf.cpp:173-213 | the loop from position i succeeds exactly when every character from i on is accepted by one of its branches |
| XPathSubset.IsValidXPath | gdal/ogr/ogrsf_frmts/gmlas/ogrgmlasconf.cpp:168-215 | a path is valid exactly when it is non-empty and every character is accepted |
| XPathSubset.ValidPathAlphabet | gdal/ogr/ogrsf_frmts/gmlas/ogrgmlasconf.cpp:172-212 | "" is invalid; a valid path contains only '/', letters, '_', digits, '@' and ':' |
| XPathSubset.PlainPathsAreValid | gdal/ogr/ogrsf_frmts/gmlas/ogrgmlasconf.cpp:176-191 | every non-empty string of '/', letters and '_' is valid |
| XPathSubset.DigitRule | gdal/ogr/ogrsf_frmts/gmlas/ogrgmlasconf.cpp:192-198 | a digit in a valid path is never first and follows a letter, digit or '_'; a leading digit or one right after '/' makes the path invalid |
| XPathSubset.AtAndColonRules | gdal/ogr/ogrsf_frmts/gmlas/ogrgmlasconf.cpp:180-207 | '@' comes first or after '/', and ':' after a letter, digit or '_'; both are followed by a letter, so a trailing '@' or ':' makes the path invalid |
| XPathSubset.XPathExamples | gdal/ogr/ogrsf_frmts/gmlas/ogrgmlasconf.cpp:168-215 | "gml:name" and "a/@b1" are valid; "a/1", "a@b" and "a[1]" are not |
| GmlasCommon.FirstSet | gdal/ogr/ogrsf_frmts/gmlas/ogrgmlasconf.cpp:104-114 | the fallback chain yields nothing exactly when no key is set, and otherwise the value of a set key preceded only by unset keys |
| GmlasCommon.FirstSetPrecedence | gdal/ogr/ogrsf_frmts/gmlas/ogrgmlasconf.cpp:104-114 | a set key preceded only by unset keys is the one whose value the chain yields |
| GmlasCommon.GetBaseCacheDirectory | gdal/ogr/ogrsf_frmts/gmlas/ogrgmlasconf.cpp:91-123 | the home option gives its `.gdal`; otherwise a temporary directory and a user name together give `.gdal_<user>` in that directory; either missing gives "" |
| GmlasCommon.CacheDirectoryPrecedence | gdal/ogr/ogrsf_frmts/gmlas/ogrgmlasconf.cpp:91-123 | on the options themselves: HOME (USERPROFILE on Windows) wins; CPL_TMPDIR over TMPDIR over TEMP; USERNAME over USER; no directory or no user gives "" |
| GmlasCommon.XmlBoolValue | gdal/ogr/ogrsf_frmts/gmlas/ogrgmlasconf.cpp:153-162 | a present value is decided by `CPLTestBool` alone, an absent one gives the default |
| IgnoredXPaths.BindPrefixes | gdal/ogr/ogrsf_frmts/gmlas/ogrgmlasconf.cpp:349-378 | prefixes already mapped keep their URI; each warning names a prefix whose reported URI is the one finally mapped |
| IgnoredXPaths.FirstBindingWins | gdal/ogr/ogrsf_frmts/gmlas/ogrgmlasconf.cpp:356-364 | a new prefix is mapped exactly when a binding with non-empty prefix and URI names it, and then to the URI of the first such binding |
| IgnoredXPaths.RebindingWarns | gdal/ogr/ogrsf_frmts/gmlas/ogrgmlasconf.cpp:360-374 | a usable binding of an already mapped prefix is reported with the URI kept and the URI ignored |
| IgnoredXPaths.GroupWarnFlag | gdal/ogr/ogrsf_frmts/gmlas/ogrgmlasconf.cpp:340-343 | the group's warn flag is true when not given |
| IgnoredXPaths.ValidPathsContents | gdal/ogr/ogrsf_frmts/gmlas/ogrgmlasconf.cpp:384-391 | the paths kept are valid, and are exactly the texts of the entries that are valid paths |
| IgnoredXPaths.InvalidPathWarningsContents | gdal/ogr/ogrsf_frmts/gmlas/ogrgmlasconf.cpp:398-403 | one warning per entry whose text is not a valid path, and no other |
| IgnoredXPaths.InvalidPathWarnings | gdal/ogr/ogrsf_frmts/gmlas/ogrgmlasconf.cpp:380-405 | every entry is either kept as a path or reported, never both |
| IgnoredXPaths.CollectXPaths | gdal/ogr/ogrsf_frmts/gmlas/ogrgmlasconf.cpp:380-405 | the valid paths are appended after the existing ones in document order, and the warnings are exactly those of the invalid entries |
| IgnoredXPaths.LastFlagWins | gdal/ogr/ogrsf_frmts/gmlas/ogrgmlasconf.cpp:392-396 | for a path given several times the warn map holds the flag of its last occurrence: its own attribute, else the group's flag |
| IgnoredXPaths.FlagsOfAbsentPathsKept | gdal/ogr/ogrsf_frmts/gmlas/ogrgmlasconf.cpp:380-405 | a path no entry names keeps its earlier flag, or stays absent |
| XLinkConf.ResolutionModeOf | gdal/ogr/ogrsf_frmts/gmlas/ogrgmlasconf.cpp:497-500 | raw content exactly when the text equals "RawContent" ignoring case, fields from XPath otherwise |
| XLinkConf.ResolutionModeRoundTrip | gdal/ogr/ogrsf_frmts/gmlas/ogrgmlasconf.cpp:495-500 | each mode is read back from its name; "RAWCONTENT" and "rawcontent" give raw content; "Raw" and "" do not |
| XLinkConf.UrlRule | gdal/ogr/ogrsf_frmts/gmlas/ogrgmlasconf.cpp:488-531 | an absent `ResolutionMode` gives raw content, an absent depth 1; one header per `HTTPHeader` and one field per `Field` child, in order |
| XLinkConf.DefaultXLinkConf | gdal/ogr/ogrsf_frmts/gmlas/ogrgmlasconf.cpp:422-432 | the constructor's values: no timeout, the header's maximum file size, resolution disabled, remote download allowed, raw content, depth 1, no caching, no rules |
| XLinkConf.XLinkCacheDirectory | gdal/ogr/ogrsf_frmts/gmlas/ogrgmlasconf.cpp:452-462 | a non-empty `CacheDirectory` is used; otherwise `xlink_resolved_cache` under the base cache directory when there is one; otherwise "" |
| XLinkConf.LoadXLinkFromXml | gdal/ogr/ogrsf_frmts/gmlas/ogrgmlasconf.cpp:438-536 | absent settings get their defaults: `Timeout` and `MaxGlobalResolutionTime` 0, `MaxFileSize` the header's default, the proxy settings "", and for the default resolution remote download allowed, no caching, depth 1 and disabled; the default resolution mode is left as it was; the URL rules found are appended after the existing ones |
| GmlasConf.DefaultConfiguration | gdal/ogr/ogrsf_frmts/gmlas/ogrgmlasconf.cpp:42-77 | the constructor's values; `exposeMetadataLayers` starts from the warn-if-excluded default (true), which differs from its own default (false) |
| GmlasConf.FillCacheDirectory | gdal/ogr/ogrsf_frmts/gmlas/ogrgmlasconf.cpp:129-147 | a directory is filled in only when the cache is allowed and none is set: `gmlas_xsd_cache` under the base directory, or a warning when there is none |
| GmlasConf.Finalize | gdal/ogr/ogrsf_frmts/gmlas/ogrgmlasconf.cpp:129-147 | only the schema cache directory can change |
| GmlasConf.FinalizeIdempotent | gdal/ogr/ogrsf_frmts/gmlas/ogrgmlasconf.cpp:129-147 | finalizing twice leaves the configuration of finalizing once |
| GmlasConf.BindScalars | gdal/ogr/ogrsf_frmts/gmlas/ogrgmlasconf.cpp:276-334 | the cache directory is read only when the cache is allowed, the fail-on-error flag only when validation is on, else both keep their values; `ExposeMetadataLayers` defaults to false |
| GmlasConf.BindIgnoredXPaths | gdal/ogr/ogrsf_frmts/gmlas/ogrgmlasconf.cpp:336-406 | only the prefix map and the ignored paths and flags change; the map is the namespace loop's over `Namespaces` (unchanged without it), the flags the `XPath` loop's, the valid paths appended in order, and the warnings the namespace loop's followed by the invalid paths' |
| GmlasConf.IgnoredSection | gdal/ogr/ogrsf_frmts/gmlas/ogrgmlasconf.cpp:336-406 | with an `IgnoredXPaths` section the prefixes, paths and flags are those of its two loops; without one nothing changes; neither the scalar settings, the cache directory nor the XLink settings ever change |
| GmlasConf.XLinkSection | gdal/ogr/ogrsf_frmts/gmlas/ogrgmlasconf.cpp:408-411 | with an `XLinkResolution` section the XLink settings are those `LoadFromXML` reads from it; without one they stay |
| GmlasConf.Load | gdal/ogr/ogrsf_frmts/gmlas/ogrgmlasconf.cpp:234-416 | succeeds exactly when the document parsed, an unparsable one being only finalized; missing `IgnoredXPaths` or `XLinkResolution` sections leave their settings unchanged |
| GmlasConf.BindDocumentScalars | gdal/ogr/ogrsf_frmts/gmlas/ogrgmlasconf.cpp:336-411 | binding the `IgnoredXPaths` and `XLinkResolution` sections changes no scalar setting and not the cache directory |
| GmlasConf.LoadReadsScalars | gdal/ogr/ogrsf_frmts/gmlas/ogrgmlasconf.cpp:276-334 | with a parsed document every scalar setting is the one the root gives, and the schema cache directory is then filled in as `Finalize` does |
| GmlasConf.LoadReadsXLink | gdal/ogr/ogrsf_frmts/gmlas/ogrgmlasconf.cpp:408-413 | with a parsed document the XLink settings are those its `XLinkResolution` section gives, `Finalize` leaving them alone |
| GmlasConf.LoadReadsIgnoredXPaths | gdal/ogr/ogrsf_frmts/gmlas/ogrgmlasconf.cpp:336-415 | with a parsed document the prefixes, ignored paths and flags are those its `IgnoredXPaths` section gives, and that section's warnings come first |
| GmlasConf.LoadFirstBindingWins | gdal/ogr/ogrsf_frmts/gmlas/ogrgmlasconf.cpp:345-378 | after `Load` a prefix mapped before keeps its URI, and a new prefix is mapped exactly when a usable `Namespace` entry names it, to the URI of the first such entry |
| GmlasConf.LoadLastFlagWins | gdal/ogr/ogrsf_frmts/gmlas/ogrgmlasconf.cpp:380-405 | after `Load` a valid path listed several times has the flag of its last `XPath` entry: its own `warnIfIgnoredXPathFoundInDocInstance`, else the group's |
| GmlasConf.ExposeMetadataLayersDefaultsDiffer | gdal/ogr/ogrsf_frmts/gmlas/ogrgmlasconf.cpp:301-303 | a fresh configuration exposes metadata layers, but loading a document silent on the setting turns it off |
| GmlasConf.AbsentSettingsKeepConstructorValues | gdal/ogr/ogrsf_frmts/gmlas/ogrgmlasconf.cpp:276-334 | binding a root with no settings onto a fresh configuration changes `exposeMetadataLayers` to false and nothing else |

## Left out

- The 8211 library itself. `DDFModule`, `DDFFieldDefn` and `DDFRecord` are only called, so the model records the requests rather than the bytes of the leader, the directory or the fields.
- XML parsing and searching. The tree is input data: `XmlNode.values` holds what `CPLGetXMLValue` finds for a key, and `CPLGetXMLNode` is a `FindNode` parameter.
- Whether `=DDFModule` is found is also an input (`Document`).
- The schema validation of a GMLAS configuration file, with its error-handler push and pop (ogrgmlasconf.cpp:221-274). It only emits warnings and never changes a setting.
- Where `Load` gets its text from (`CPLParseXMLString` or `CPLParseXMLFile`). A parse failure is `None`.
- `CPLTestBool`, `CPLFormFilename` and `CPLGetConfigOption` are parameters.
- The library defaults read back by the tool are parameters (`LibraryDefaults`): the field-control length and a new record's sizes. So is the header's `MAX_FILE_SIZE_DEFAULT`.
- The constructor of `URLSpecificResolution` (ogrgmlasconf.cpp:542-548) is not modelled. `LoadFromXML` overwrites every field it sets, so its values are never observable.
- Process exit codes are a `Failure` value. The usage and error messages, `CPLDebug` output, `malloc` and `free` are not modelled.
- autotest/cpp/test_gdal.cpp is not part of this model. It exercises driver registration and translation utilities, not these rules.
- DdfRecords.SubfieldSetter: a float subfield's value is its text; the conversion by `CPLAtof` is floating point and is not modelled.
- Decimal.IntValueOr: `atoi` is unbounded here. The C `int` overflow on very long digit strings is not modelled.
- DdfRecords.TranslateRecord: a field name resolves when it equals a tag defined earlier, case-sensitively. The library's `FindFieldDefn` is not part of this model, so any case-insensitive fallback it may have is not reflected.
- DdfLeader.TagLengths: a tag's length counts characters where `strlen` counts bytes. 8211 attribute text is taken as one character per byte, which holds for ASCII; a tag with a multi-byte UTF-8 character is longer in the C code.
- DdfLeader.WidthScanCharacterised: compares character counts, for the same reason as `TagLengths`.
- DdfLeader.FirstCharOr: takes the first character where the C code takes the first byte; the two agree for ASCII text.
- DdfLeader.CutToThree: keeps three characters where `snprintf` keeps three bytes; the two agree for ASCII text.
- HexLiteral.DecodePairs: pairs characters where the C code pairs bytes; the two agree for ASCII text, the only text a hex literal is meant to hold.
- XPathSubset.IsValidXPath: a character is a Unicode code point classified in ASCII. The C code's `char` is a byte, so a multi-byte UTF-8 character is never a letter there either. The two agree whenever every character is ASCII.
- CreateFromXml.Convert: records are translated before the loop runs and are not interleaved with the library calls. This changes nothing observable: a translation reads only the XML and the tags defined earlier.
