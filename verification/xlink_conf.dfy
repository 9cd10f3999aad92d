/**
 The `XLinkResolution` section of a GMLAS configuration: limits and proxy
 settings for following xlink:href references, the default resolution
 behaviour, and the rules specific to URL prefixes.
 */
module XLinkConf {
  import opened Text
  import opened Decimal
  import opened GmlasCommon

  /** How the content behind a resolved link is exposed. */
  datatype ResolutionMode = RawContent | FieldsFromXPath

  /** The name a configuration uses for each mode. */
  function ResolutionModeName(m: ResolutionMode): string {
    match m
    case RawContent => "RawContent"
    case FieldsFromXPath => "FieldsFromXPath"
  }

  /**
   The mode a `ResolutionMode` text selects: raw content exactly when the
   text is "RawContent" ignoring ASCII case, and fields from XPath for any
   other text.
   */
  function ResolutionModeOf(v: string): (m: ResolutionMode)
    ensures m == RawContent <==> EqualNoCase(v, "RawContent")
  {
    if EqualNoCase(v, "RawContent") then RawContent else FieldsFromXPath
  }

  /**
   Every mode is read back from its own name, whatever the case the name is
   written in; an absent `ResolutionMode` (read as "RawContent") gives raw
   content, and so does any other spelling of that word.
   */
  lemma ResolutionModeRoundTrip(m: ResolutionMode)
    ensures ResolutionModeOf(ResolutionModeName(m)) == m
    ensures ResolutionModeOf("RAWCONTENT") == RawContent && ResolutionModeOf("rawcontent") == RawContent
    ensures ResolutionModeOf("Raw") == FieldsFromXPath && ResolutionModeOf("") == FieldsFromXPath
  {
    assert EqualNoCase("RawContent", "RawContent");
    var u := "RAWCONTENT";
    assert forall i :: 0 <= i < |u| ==> ToLower(u[i]) == ToLower("RawContent"[i]);
    var l := "rawcontent";
    assert forall i :: 0 <= i < |l| ==> ToLower(l[i]) == ToLower("RawContent"[i]);
  }

  /** An `HTTPHeader` to send for a URL. */
  datatype HttpHeader = HttpHeader(name: string, value: string)

  /** A `Field` whose value is taken from the resolved document by an XPath. */
  datatype XPathDerivedField = XPathDerivedField(name: string, fieldType: string, xpath: string)

  /** A `URLSpecificResolution` rule. */
  datatype UrlSpecificResolution = UrlSpecificResolution(
    urlPrefix: string,
    allowRemoteDownload: bool,
    resolutionMode: ResolutionMode,
    resolutionDepth: int,
    cacheResults: bool,
    headers: seq<HttpHeader>,
    fields: seq<XPathDerivedField>)

  const DefaultResolutionEnabledDefault := false
  const AllowRemoteDownloadDefault := true
  const CacheResultsDefault := false

  function HeaderOf(n: XmlNode): HttpHeader {
    HttpHeader(ValueOr(n, "Name", ""), ValueOr(n, "Value", ""))
  }

  function FieldOf(n: XmlNode): XPathDerivedField {
    XPathDerivedField(ValueOr(n, "Name", ""), ValueOr(n, "Type", ""), ValueOr(n, "XPath", ""))
  }

  /**
   One `URLSpecificResolution` element: the mode from `ResolutionMode`
   (raw content when absent), depth 1 when `ResolutionDepth` is absent, and
   one header per `HTTPHeader` child and one field per `Field` child (names
   compared case-sensitively), each in document order.
   */
  function UrlRule(n: XmlNode, testBool: TestBool): (r: UrlSpecificResolution)
    ensures r.urlPrefix == ValueOr(n, "URLPrefix", "")
    ensures Value(n, "ResolutionMode").None? ==> r.resolutionMode == RawContent
    ensures Value(n, "ResolutionMode").Some? ==>
              (r.resolutionMode == RawContent <==> EqualNoCase(Value(n, "ResolutionMode").value, "RawContent"))
    ensures Value(n, "ResolutionDepth").None? ==> r.resolutionDepth == 1
    ensures Value(n, "AllowRemoteDownload").None? ==> r.allowRemoteDownload == AllowRemoteDownloadDefault
    ensures Value(n, "CacheResults").None? ==> r.cacheResults == CacheResultsDefault
    ensures |r.headers| == |ElementsNamed(Children(n), "HTTPHeader")|
    ensures forall k :: 0 <= k < |r.headers| ==> r.headers[k] == HeaderOf(ElementsNamed(Children(n), "HTTPHeader")[k])
    ensures |r.fields| == |ElementsNamed(Children(n), "Field")|
    ensures forall k :: 0 <= k < |r.fields| ==> r.fields[k] == FieldOf(ElementsNamed(Children(n), "Field")[k])
  {
    var hs := ElementsNamed(Children(n), "HTTPHeader");
    var fs := ElementsNamed(Children(n), "Field");
    UrlSpecificResolution(
      ValueOr(n, "URLPrefix", ""),
      XmlBoolValue(n, "AllowRemoteDownload", AllowRemoteDownloadDefault, testBool),
      ResolutionModeOf(ValueOr(n, "ResolutionMode", "RawContent")),
      IntValueOr(n, "ResolutionDepth", 1),
      XmlBoolValue(n, "CacheResults", CacheResultsDefault, testBool),
      seq(|hs|, i requires 0 <= i < |hs| => HeaderOf(hs[i])),
      seq(|fs|, i requires 0 <= i < |fs| => FieldOf(fs[i])))
  }

  /** The rules of the `URLSpecificResolution` children, in document order. */
  function UrlRules(children: seq<XmlNode>, testBool: TestBool): (r: seq<UrlSpecificResolution>)
    ensures |r| == |ElementsNamed(children, "URLSpecificResolution")|
  {
    var es := ElementsNamed(children, "URLSpecificResolution");
    seq(|es|, i requires 0 <= i < |es| => UrlRule(es[i], testBool))
  }

  /** `GMLASXLinkResolutionConf`. */
  datatype XLinkResolutionConf = XLinkResolutionConf(
    timeOut: int,
    maxFileSize: int,
    maxGlobalResolutionTime: int,
    proxyServerPort: string,
    proxyUserPassword: string,
    proxyAuth: string,
    cacheDirectory: string,
    defaultResolutionEnabled: bool,
    defaultAllowRemoteDownload: bool,
    defaultResolutionMode: ResolutionMode,
    defaultResolutionDepth: int,
    defaultCacheResults: bool,
    urlRules: seq<UrlSpecificResolution>)

  /**
   The constructor's values. `maxFileSizeDefault` is the header's
   `MAX_FILE_SIZE_DEFAULT`; the strings start empty and there are no rules.
   */
  function DefaultXLinkConf(maxFileSizeDefault: int): (c: XLinkResolutionConf)
    ensures c.timeOut == 0 && c.maxGlobalResolutionTime == 0 && c.maxFileSize == maxFileSizeDefault
    ensures !c.defaultResolutionEnabled && c.defaultAllowRemoteDownload && !c.defaultCacheResults
    ensures c.defaultResolutionMode == RawContent && c.defaultResolutionDepth == 1
    ensures c.cacheDirectory == "" && c.urlRules == []
  {
    XLinkResolutionConf(0, maxFileSizeDefault, 0, "", "", "", "",
      DefaultResolutionEnabledDefault, AllowRemoteDownloadDefault, RawContent, 1, CacheResultsDefault, [])
  }

  /**
   The directory for resolved documents: `CacheDirectory` when given and
   non-empty, otherwise `xlink_resolved_cache` under the base cache directory
   when there is one, otherwise "".
   */
  function XLinkCacheDirectory(n: XmlNode, env: Environment, join: Join): (r: string)
    ensures ValueOr(n, "CacheDirectory", "") != "" ==> r == ValueOr(n, "CacheDirectory", "")
    ensures ValueOr(n, "CacheDirectory", "") == "" && GetBaseCacheDirectory(env, join) != "" ==>
              r == join(GetBaseCacheDirectory(env, join), "xlink_resolved_cache")
    ensures ValueOr(n, "CacheDirectory", "") == "" && GetBaseCacheDirectory(env, join) == "" ==> r == ""
  {
    var given := ValueOr(n, "CacheDirectory", "");
    if given != "" then given
    else
      var base := GetBaseCacheDirectory(env, join);
      if base == "" then "" else join(base, "xlink_resolved_cache")
  }

  /**
   `LoadFromXML`: every scalar setting is read again (absent ones get their
   defaults, `MaxFileSize` the header's default through its decimal text),
   the default resolution mode is left as it was, and the URL rules found
   are appended after the existing ones.
   */
  function LoadXLinkFromXml(c: XLinkResolutionConf, n: XmlNode, env: Environment, join: Join,
                            testBool: TestBool, maxFileSizeDefault: int): (r: XLinkResolutionConf)
    ensures Value(n, "MaxFileSize").None? ==> r.maxFileSize == maxFileSizeDefault
    ensures Value(n, "Timeout").None? ==> r.timeOut == 0
    ensures Value(n, "MaxGlobalResolutionTime").None? ==> r.maxGlobalResolutionTime == 0
    ensures Value(n, "ProxyServerPort").None? ==> r.proxyServerPort == ""
    ensures Value(n, "ProxyUserPassword").None? ==> r.proxyUserPassword == ""
    ensures Value(n, "ProxyAuth").None? ==> r.proxyAuth == ""
    ensures Value(n, "DefaultResolution.AllowRemoteDownload").None? ==>
              r.defaultAllowRemoteDownload == AllowRemoteDownloadDefault
    ensures Value(n, "DefaultResolution.CacheResults").None? ==> r.defaultCacheResults == CacheResultsDefault
    ensures Value(n, "DefaultResolution.ResolutionDepth").None? ==> r.defaultResolutionDepth == 1
    ensures Value(n, "DefaultResolution.enabled").None? ==> r.defaultResolutionEnabled == DefaultResolutionEnabledDefault
    ensures r.defaultResolutionMode == c.defaultResolutionMode
    ensures r.cacheDirectory == XLinkCacheDirectory(n, env, join)
    ensures |r.urlRules| == |c.urlRules| + |ElementsNamed(Children(n), "URLSpecificResolution")|
    ensures r.urlRules[..|c.urlRules|] == c.urlRules
    ensures r.urlRules[|c.urlRules|..] == UrlRules(Children(n), testBool)
  {
    var rules := c.urlRules + UrlRules(Children(n), testBool);
    assert rules[..|c.urlRules|] == c.urlRules;
    assert rules[|c.urlRules|..] == UrlRules(Children(n), testBool);
    XLinkResolutionConf(
      IntValueOr(n, "Timeout", 0),
      IntValueOr(n, "MaxFileSize", maxFileSizeDefault),
      IntValueOr(n, "MaxGlobalResolutionTime", 0),
      ValueOr(n, "ProxyServerPort", ""),
      ValueOr(n, "ProxyUserPassword", ""),
      ValueOr(n, "ProxyAuth", ""),
      XLinkCacheDirectory(n, env, join),
      XmlBoolValue(n, "DefaultResolution.enabled", DefaultResolutionEnabledDefault, testBool),
      XmlBoolValue(n, "DefaultResolution.AllowRemoteDownload", AllowRemoteDownloadDefault, testBool),
      c.defaultResolutionMode,
      IntValueOr(n, "DefaultResolution.ResolutionDepth", 1),
      XmlBoolValue(n, "DefaultResolution.CacheResults", CacheResultsDefault, testBool),
      rules)
  }
}
