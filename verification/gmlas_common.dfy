/**
 What the GMLAS configuration code takes from its surroundings: the
 configuration options, the platform, path joining, boolean parsing and the
 XML library's node search, plus the helpers of `ogrgmlasconf.cpp` shared by
 the driver configuration and the XLink resolution configuration.
 */
module GmlasCommon {
  import opened Text

  /** `CPLFormFilename(dir, name, NULL)`, left uninterpreted. */
  type Join = (string, string) -> string

  /** `CPLTestBool`, left uninterpreted. */
  type TestBool = string -> bool

  /** `CPLGetXMLNode(node, path)`: the XML library's search, left uninterpreted. */
  type FindNode = (XmlNode, string) -> Option<XmlNode>

  /** The options `CPLGetConfigOption` can see, and whether this is a Windows build. */
  datatype Environment = Environment(options: map<string, string>, windows: bool)

  /** A warning the configuration code emits through `CPLError`. */
  datatype Warning =
    | NoCacheDirectory
    | PrefixAlreadyMapped(prefix: string, mapped: string, ignored: string)
    | UnsupportedXPath(xpath: string)

  /** The value of the first of `keys` that is set: the chain of `NULL` fallbacks. */
  function FirstSet(options: map<string, string>, keys: seq<string>): (r: Option<string>)
    ensures r.None? <==> forall k :: 0 <= k < |keys| ==> keys[k] !in options
    ensures r.Some? ==>
              exists k :: 0 <= k < |keys| && keys[k] in options && r.value == options[keys[k]] &&
                forall j :: 0 <= j < k ==> keys[j] !in options
  {
    if |keys| == 0 then None
    else if keys[0] in options then Some(options[keys[0]])
    else
      var r := FirstSet(options, keys[1..]);
      if r.Some? then
        var k :| 0 <= k < |keys[1..]| && keys[1..][k] in options && r.value == options[keys[1..][k]] &&
                 forall j :: 0 <= j < k ==> keys[1..][j] !in options;
        assert keys[k + 1] in options && forall j :: 0 <= j < k + 1 ==> keys[j] !in options;
        r
      else r
  }

  /**
   The converse of `FirstSet`'s contract: a key that is set, with none of
   the earlier keys set, is the one whose value is taken.
   */
  lemma {:induction false} FirstSetPrecedence(options: map<string, string>, keys: seq<string>, k: nat)
    requires k < |keys| && keys[k] in options
    requires forall j :: 0 <= j < k ==> keys[j] !in options
    ensures FirstSet(options, keys) == Some(options[keys[k]])
    decreases k
  {
    if k > 0 {
      FirstSetPrecedence(options, keys[1..], k - 1);
    }
  }

  /** The home directory's option: `USERPROFILE` on Windows, `HOME` elsewhere. */
  function HomeKey(env: Environment): string {
    if env.windows then "USERPROFILE" else "HOME"
  }

  /** Where a temporary directory is looked for, in order. */
  const TempDirKeys: seq<string> := ["CPL_TMPDIR", "TMPDIR", "TEMP"]

  /** Where the user name is looked for, in order. */
  const UserKeys: seq<string> := ["USERNAME", "USER"]

  /**
   `GetBaseCacheDirectory`: the home directory's `.gdal` when the home option
   is set; otherwise `.gdal_<user>` in the temporary directory, which needs
   both a temporary directory and a user name; otherwise "".
   */
  function GetBaseCacheDirectory(env: Environment, join: Join): (r: string)
    ensures HomeKey(env) in env.options ==> r == join(env.options[HomeKey(env)], ".gdal")
    ensures HomeKey(env) !in env.options &&
            FirstSet(env.options, TempDirKeys).Some? && FirstSet(env.options, UserKeys).Some? ==>
              r == join(FirstSet(env.options, TempDirKeys).value, ".gdal_" + FirstSet(env.options, UserKeys).value)
    ensures HomeKey(env) !in env.options &&
            (FirstSet(env.options, TempDirKeys).None? || FirstSet(env.options, UserKeys).None?) ==>
              r == ""
  {
    if HomeKey(env) in env.options then join(env.options[HomeKey(env)], ".gdal")
    else
      var dir := FirstSet(env.options, TempDirKeys);
      var user := FirstSet(env.options, UserKeys);
      if dir.Some? && user.Some? then join(dir.value, ".gdal_" + user.value) else ""
  }

  /**
   The precedence among the options, stated on the options themselves: the
   home option wins over everything; then `CPL_TMPDIR` over `TMPDIR` over
   `TEMP`, and `USERNAME` over `USER`; with no temporary directory, or no
   user name, there is no base directory at all.
   */
  lemma CacheDirectoryPrecedence(env: Environment, join: Join)
    ensures HomeKey(env) in env.options ==>
              GetBaseCacheDirectory(env, join) == join(env.options[HomeKey(env)], ".gdal")
    ensures HomeKey(env) !in env.options && "CPL_TMPDIR" in env.options && "USERNAME" in env.options ==>
              GetBaseCacheDirectory(env, join) == join(env.options["CPL_TMPDIR"], ".gdal_" + env.options["USERNAME"])
    ensures HomeKey(env) !in env.options && "CPL_TMPDIR" !in env.options && "TMPDIR" in env.options &&
            "USERNAME" !in env.options && "USER" in env.options ==>
              GetBaseCacheDirectory(env, join) == join(env.options["TMPDIR"], ".gdal_" + env.options["USER"])
    ensures HomeKey(env) !in env.options && "CPL_TMPDIR" !in env.options && "TMPDIR" !in env.options &&
            "TEMP" in env.options && "USERNAME" in env.options ==>
              GetBaseCacheDirectory(env, join) == join(env.options["TEMP"], ".gdal_" + env.options["USERNAME"])
    ensures HomeKey(env) !in env.options &&
            (("CPL_TMPDIR" !in env.options && "TMPDIR" !in env.options && "TEMP" !in env.options) ||
             ("USERNAME" !in env.options && "USER" !in env.options)) ==>
              GetBaseCacheDirectory(env, join) == ""
  {
    var o := env.options;
    if "CPL_TMPDIR" in o {
      FirstSetPrecedence(o, TempDirKeys, 0);
    } else if "TMPDIR" in o {
      FirstSetPrecedence(o, TempDirKeys, 1);
    } else if "TEMP" in o {
      FirstSetPrecedence(o, TempDirKeys, 2);
    }
    if "USERNAME" in o {
      FirstSetPrecedence(o, UserKeys, 0);
    } else if "USER" in o {
      FirstSetPrecedence(o, UserKeys, 1);
    }
  }

  /**
   `CPLGetXMLBoolValue`: the boolean reading of the value found for `key`,
   or `default` when there is none; a value that is present decides alone.
   */
  function XmlBoolValue(n: XmlNode, key: string, default: bool, testBool: TestBool): (r: bool)
    ensures Value(n, key).Some? ==> r == testBool(Value(n, key).value)
    ensures Value(n, key).None? ==> r == default
  {
    match Value(n, key)
    case Some(v) => testBool(v)
    case None => default
  }

  /**
   The children that are elements whose name is `name` ignoring ASCII case
   (the `EQUAL` test of the configuration loops), in document order.
   */
  function ElementsNamedNoCase(children: seq<XmlNode>, name: string): (r: seq<XmlNode>)
    ensures |r| <= |children|
    ensures forall k :: 0 <= k < |r| ==> r[k].Element? && EqualNoCase(r[k].name, name)
    ensures forall x :: x in children && x.Element? && EqualNoCase(x.name, name) ==> x in r
    ensures forall x :: x in r ==> x in children
  {
    if |children| == 0 then []
    else
      var rest := ElementsNamedNoCase(children[1..], name);
      var c := children[0];
      if c.Element? && EqualNoCase(c.name, name) then [c] + rest else rest
  }
}
