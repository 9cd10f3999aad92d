/**
 The `IgnoredXPaths` section of a GMLAS configuration: namespace prefixes
 bound for use in the ignored paths, and the paths themselves with, for each,
 whether to warn when the path is met in a document.
 */
module IgnoredXPaths {
  import opened Text
  import opened XPathSubset
  import opened GmlasCommon

  /** One `Namespace` element's `prefix` and `uri`, each "" when absent. */
  datatype Binding = Binding(prefix: string, uri: string)

  function BindingOf(n: XmlNode): Binding {
    Binding(ValueOr(n, "prefix", ""), ValueOr(n, "uri", ""))
  }

  /** A binding with an empty prefix or an empty URI is skipped silently. */
  predicate Usable(b: Binding) {
    b.prefix != "" && b.uri != ""
  }

  /** The result of the namespace loop: the prefix map and the warnings emitted. */
  datatype Bound = Bound(prefixes: map<string, string>, warnings: seq<Warning>)

  /**
   The namespace loop over `bs`, first to last, from the map `m`: a usable
   binding of a new prefix is added, one of a prefix already present is
   ignored with a warning naming the URI that stays.
   */
  function BindPrefixes(bs: seq<Binding>, m: map<string, string>): (r: Bound)
    ensures forall p :: p in m ==> p in r.prefixes && r.prefixes[p] == m[p]
    ensures forall w :: w in r.warnings ==>
              w.PrefixAlreadyMapped? && w.prefix in r.prefixes && r.prefixes[w.prefix] == w.mapped
    ensures |r.warnings| <= |bs|
    decreases |bs|
  {
    if |bs| == 0 then Bound(m, [])
    else
      var b := bs[0];
      if !Usable(b) then BindPrefixes(bs[1..], m)
      else if b.prefix in m then
        var rest := BindPrefixes(bs[1..], m);
        Bound(rest.prefixes, [PrefixAlreadyMapped(b.prefix, m[b.prefix], b.uri)] + rest.warnings)
      else BindPrefixes(bs[1..], m[b.prefix := b.uri])
  }

  /** Position `k` holds the first usable binding of prefix `p`. */
  ghost predicate IsFirstBinding(bs: seq<Binding>, p: string, k: int) {
    0 <= k < |bs| && Usable(bs[k]) && bs[k].prefix == p &&
    forall j :: 0 <= j < k ==> !(Usable(bs[j]) && bs[j].prefix == p)
  }

  /** Some usable binding of `p` occurs in `bs`. */
  ghost predicate IsBound(bs: seq<Binding>, p: string) {
    exists k :: 0 <= k < |bs| && Usable(bs[k]) && bs[k].prefix == p
  }

  /**
   The first binding wins: a prefix already in the map keeps its URI; a new
   prefix is in the result exactly when some usable binding names it, and
   then maps to the URI of the first such binding.
   */
  lemma {:induction false} FirstBindingWins(bs: seq<Binding>, m: map<string, string>, p: string)
    ensures p !in m ==> (p in BindPrefixes(bs, m).prefixes <==> IsBound(bs, p))
    ensures p !in m && IsBound(bs, p) ==>
              exists k :: IsFirstBinding(bs, p, k) && BindPrefixes(bs, m).prefixes[p] == bs[k].uri
    decreases |bs|
  {
    if |bs| > 0 && p !in m {
      var b := bs[0];
      var m' := if Usable(b) && b.prefix !in m then m[b.prefix := b.uri] else m;
      assert BindPrefixes(bs, m).prefixes == BindPrefixes(bs[1..], m').prefixes;
      if Usable(b) && b.prefix == p {
        assert IsBound(bs, p);
        assert IsFirstBinding(bs, p, 0);
      } else {
        assert p !in m';
        FirstBindingWins(bs[1..], m', p);
        if IsBound(bs, p) {
          var i :| 0 <= i < |bs| && Usable(bs[i]) && bs[i].prefix == p;
          assert i > 0;
          assert IsBound(bs[1..], p) by {
            assert bs[1..][i - 1] == bs[i];
          }
          var k :| IsFirstBinding(bs[1..], p, k) && BindPrefixes(bs[1..], m').prefixes[p] == bs[1..][k].uri;
          assert IsFirstBinding(bs, p, k + 1);
        }
        if IsBound(bs[1..], p) {
          var i :| 0 <= i < |bs[1..]| && Usable(bs[1..][i]) && bs[1..][i].prefix == p;
          assert bs[i + 1] == bs[1..][i];
        }
      }
    }
  }

  /**
   A later usable binding of a prefix that is already mapped (before the
   loop, or by an earlier binding) changes nothing and is reported, with the
   URI that stays and the one ignored.
   */
  lemma {:induction false} RebindingWarns(bs: seq<Binding>, m: map<string, string>, k: nat)
    requires k < |bs| && Usable(bs[k])
    requires bs[k].prefix in m || exists j :: 0 <= j < k && Usable(bs[j]) && bs[j].prefix == bs[k].prefix
    ensures bs[k].prefix in BindPrefixes(bs, m).prefixes
    ensures PrefixAlreadyMapped(bs[k].prefix, BindPrefixes(bs, m).prefixes[bs[k].prefix], bs[k].uri)
              in BindPrefixes(bs, m).warnings
    decreases k
  {
    var b := bs[0];
    var p := bs[k].prefix;
    if k == 0 {
      assert b.prefix in m;
    } else if !Usable(b) || b.prefix in m {
      var rest := BindPrefixes(bs[1..], m);
      if p !in m {
        var j :| 0 <= j < k && Usable(bs[j]) && bs[j].prefix == p;
        assert j > 0;
        assert bs[1..][j - 1] == bs[j];
      }
      RebindingWarns(bs[1..], m, k - 1);
    } else {
      var m' := m[b.prefix := b.uri];
      if p !in m' {
        var j :| 0 <= j < k && Usable(bs[j]) && bs[j].prefix == p;
        assert j > 0;
        assert bs[1..][j - 1] == bs[j];
      }
      RebindingWarns(bs[1..], m', k - 1);
    }
  }

  /** The `Namespace` children (any case) of a `Namespaces` element, as bindings. */
  function NamespaceBindings(namespaces: XmlNode): (bs: seq<Binding>)
    ensures |bs| == |ElementsNamedNoCase(Children(namespaces), "Namespace")|
  {
    var es := ElementsNamedNoCase(Children(namespaces), "Namespace");
    seq(|es|, i requires 0 <= i < |es| => BindingOf(es[i]))
  }

  /** Whether to warn when the path of `XPath` element `e` is met: its own flag, else the group's. */
  function WarnFlag(e: XmlNode, groupWarn: bool, testBool: TestBool): bool {
    XmlBoolValue(e, "warnIfIgnoredXPathFoundInDocInstance", groupWarn, testBool)
  }

  /** The group's flag, true when `WarnIfIgnoredXPathFoundInDocInstance` is absent. */
  function GroupWarnFlag(ignored: XmlNode, testBool: TestBool): (r: bool)
    ensures Value(ignored, "WarnIfIgnoredXPathFoundInDocInstance").None? ==> r
  {
    XmlBoolValue(ignored, "WarnIfIgnoredXPathFoundInDocInstance", true, testBool)
  }

  /** The ignored paths, in order, and the warn flag of each. */
  datatype Ignored = Ignored(paths: seq<string>, warn: map<string, bool>)

  /** The texts of the entries that are valid paths, in order. */
  function ValidPaths(entries: seq<XmlNode>): (r: seq<string>)
    ensures |r| <= |entries|
  {
    if |entries| == 0 then []
    else
      var rest := ValidPaths(entries[1..]);
      var x := OwnText(entries[0]);
      if IsValidXPath(x) then [x] + rest else rest
  }

  /** The paths kept are valid, and they are the texts of the entries that are valid paths. */
  lemma {:induction false} ValidPathsContents(entries: seq<XmlNode>)
    ensures forall k :: 0 <= k < |ValidPaths(entries)| ==> IsValidXPath(ValidPaths(entries)[k])
    ensures forall x :: x in ValidPaths(entries) <==> exists e :: e in entries && OwnText(e) == x && IsValidXPath(x)
    decreases |entries|
  {
    if |entries| > 0 {
      ValidPathsContents(entries[1..]);
      assert forall e :: e in entries <==> e == entries[0] || e in entries[1..];
    }
  }

  /** The warning for each entry whose text is not a valid path, in order. */
  function InvalidPathWarnings(entries: seq<XmlNode>): (r: seq<Warning>)
    ensures |r| + |ValidPaths(entries)| == |entries|
  {
    if |entries| == 0 then []
    else
      var rest := InvalidPathWarnings(entries[1..]);
      var x := OwnText(entries[0]);
      if IsValidXPath(x) then rest else [UnsupportedXPath(x)] + rest
  }

  /** One warning for each entry whose text is not a valid path, and no other. */
  lemma {:induction false} InvalidPathWarningsContents(entries: seq<XmlNode>)
    ensures forall w :: w in InvalidPathWarnings(entries) <==>
              exists e :: e in entries && w == UnsupportedXPath(OwnText(e)) && !IsValidXPath(OwnText(e))
    decreases |entries|
  {
    if |entries| > 0 {
      InvalidPathWarningsContents(entries[1..]);
      assert forall e :: e in entries <==> e == entries[0] || e in entries[1..];
    }
  }

  /** The result of the `XPath` loop. */
  datatype Collected = Collected(ignored: Ignored, warnings: seq<Warning>)

  /**
   The `XPath` loop over `entries`, first to last, from `acc`: a valid path is
   appended and its flag recorded, an invalid one is only reported. The
   paths appended and the warnings are exactly the valid and invalid entries,
   in document order.
   */
  function CollectXPaths(entries: seq<XmlNode>, groupWarn: bool, testBool: TestBool, acc: Ignored): (r: Collected)
    ensures r.ignored.paths == acc.paths + ValidPaths(entries)
    ensures r.warnings == InvalidPathWarnings(entries)
    decreases |entries|
  {
    if |entries| == 0 then Collected(acc, [])
    else
      var e := entries[0];
      var x := OwnText(e);
      if IsValidXPath(x) then
        var next := Ignored(acc.paths + [x], acc.warn[x := WarnFlag(e, groupWarn, testBool)]);
        var r := CollectXPaths(entries[1..], groupWarn, testBool, next);
        assert ValidPaths(entries) == [x] + ValidPaths(entries[1..]);
        assert InvalidPathWarnings(entries) == InvalidPathWarnings(entries[1..]);
        assert acc.paths + [x] + ValidPaths(entries[1..]) == acc.paths + ([x] + ValidPaths(entries[1..]));
        r
      else
        var rest := CollectXPaths(entries[1..], groupWarn, testBool, acc);
        assert ValidPaths(entries) == ValidPaths(entries[1..]);
        assert InvalidPathWarnings(entries) == [UnsupportedXPath(x)] + InvalidPathWarnings(entries[1..]);
        Collected(rest.ignored, [UnsupportedXPath(x)] + rest.warnings)
  }

  /**
   For a path given more than once the flag of its last occurrence is kept,
   whatever earlier occurrences said.
   */
  lemma {:induction false} LastFlagWins(entries: seq<XmlNode>, groupWarn: bool, testBool: TestBool, acc: Ignored, k: nat)
    requires k < |entries| && IsValidXPath(OwnText(entries[k]))
    requires forall j :: k < j < |entries| ==> OwnText(entries[j]) != OwnText(entries[k])
    ensures OwnText(entries[k]) in CollectXPaths(entries, groupWarn, testBool, acc).ignored.warn
    ensures CollectXPaths(entries, groupWarn, testBool, acc).ignored.warn[OwnText(entries[k])]
              == WarnFlag(entries[k], groupWarn, testBool)
    decreases |entries|
  {
    var e := entries[0];
    var x := OwnText(e);
    var next := if IsValidXPath(x) then Ignored(acc.paths + [x], acc.warn[x := WarnFlag(e, groupWarn, testBool)]) else acc;
    assert CollectXPaths(entries, groupWarn, testBool, acc).ignored
        == CollectXPaths(entries[1..], groupWarn, testBool, next).ignored;
    if k == 0 {
      FlagsOfAbsentPathsKept(entries[1..], groupWarn, testBool, next, x);
    } else {
      assert entries[1..][k - 1] == entries[k];
      LastFlagWins(entries[1..], groupWarn, testBool, next, k - 1);
    }
  }

  /** A path no entry names keeps the flag it had before the loop, or stays absent. */
  lemma {:induction false} FlagsOfAbsentPathsKept(entries: seq<XmlNode>, groupWarn: bool, testBool: TestBool, acc: Ignored, p: string)
    requires forall j :: 0 <= j < |entries| ==> OwnText(entries[j]) != p
    ensures p in CollectXPaths(entries, groupWarn, testBool, acc).ignored.warn <==> p in acc.warn
    ensures p in acc.warn ==> CollectXPaths(entries, groupWarn, testBool, acc).ignored.warn[p] == acc.warn[p]
    decreases |entries|
  {
    if |entries| > 0 {
      var e := entries[0];
      var x := OwnText(e);
      var next := if IsValidXPath(x) then Ignored(acc.paths + [x], acc.warn[x := WarnFlag(e, groupWarn, testBool)]) else acc;
      assert CollectXPaths(entries, groupWarn, testBool, acc).ignored
          == CollectXPaths(entries[1..], groupWarn, testBool, next).ignored;
      FlagsOfAbsentPathsKept(entries[1..], groupWarn, testBool, next, p);
    }
  }

  /** The `XPath` children (any case) of the `IgnoredXPaths` element. */
  function XPathEntries(ignored: XmlNode): seq<XmlNode> {
    ElementsNamedNoCase(Children(ignored), "XPath")
  }
}
