/**
 How 8211createfromxml decides the leader parameters of the module it creates:
 the field-tag width inferred from the `DDFFieldDefn` tags, and the leader
 characters and sizes read from the `DDFModule` element's attributes with
 their defaults.
 */
module DdfLeader {
  import opened Text
  import opened Decimal

  /** The tags of the `DDFFieldDefn` children of the module, in document order. */
  function FieldDefnTags(children: seq<XmlNode>): (tags: seq<string>)
    ensures |tags| == |ElementsNamed(children, "DDFFieldDefn")|
  {
    var defns := ElementsNamed(children, "DDFFieldDefn");
    seq(|defns|, i requires 0 <= i < |defns| => ValueOr(defns[i], "tag", ""))
  }

  /**
   The scan of the tag lengths. `width` is 0 until a non-empty tag is seen
   (0 doubles as "nothing seen yet"); after that every tag must have that
   length. `None` is the "All fields have not the same tag size" exit.
   */
  function WidthScan(lens: seq<nat>, width: nat): Option<nat> {
    if |lens| == 0 then Some(width)
    else if width == 0 then WidthScan(lens[1..], lens[0])
    else if width != lens[0] then None
    else WidthScan(lens[1..], width)
  }

  /** Two tags disagree in length, the first of them being non-empty. */
  ghost predicate Mismatch(lens: seq<nat>) {
    exists i, j :: 0 <= i < j < |lens| && lens[i] != 0 && lens[j] != lens[i]
  }

  /** Every tag length is `w`. */
  ghost predicate AllLengths(lens: seq<nat>, w: nat) {
    forall k :: 0 <= k < |lens| ==> lens[k] == w
  }

  lemma {:induction false} ScanFromWidth(lens: seq<nat>, w: nat)
    requires w != 0
    ensures WidthScan(lens, w) == (if AllLengths(lens, w) then Some(w) else None)
  {
    if |lens| > 0 {
      ScanFromWidth(lens[1..], w);
      if lens[0] == w && !AllLengths(lens, w) {
        var k :| 0 <= k < |lens| && lens[k] != w;
        assert lens[1..][k - 1] == lens[k];
      }
    }
  }

  /**
   The scan fails exactly when some non-empty tag is followed by a tag of
   another length; when it succeeds every non-empty tag has the inferred
   length, and the width is 0 exactly when every tag is empty (no definitions
   at all included).
   */
  lemma {:induction false} WidthScanCharacterised(lens: seq<nat>)
    ensures WidthScan(lens, 0).None? <==> Mismatch(lens)
    ensures WidthScan(lens, 0).Some? ==>
              forall k :: 0 <= k < |lens| && lens[k] != 0 ==> lens[k] == WidthScan(lens, 0).value
    ensures WidthScan(lens, 0) == Some(0) <==> AllLengths(lens, 0)
  {
    if |lens| > 0 {
      var rest := lens[1..];
      if lens[0] == 0 {
        WidthScanCharacterised(rest);
        if Mismatch(rest) {
          var i, j :| 0 <= i < j < |rest| && rest[i] != 0 && rest[j] != rest[i];
          assert lens[i + 1] != 0 && lens[j + 1] != lens[i + 1];
        }
        if Mismatch(lens) {
          var i, j :| 0 <= i < j < |lens| && lens[i] != 0 && lens[j] != lens[i];
          assert rest[i - 1] != 0 && rest[j - 1] != rest[i - 1];
        }
        if AllLengths(rest, 0) {
          assert forall k :: 1 <= k < |lens| ==> lens[k] == rest[k - 1];
        }
      } else {
        ScanFromWidth(rest, lens[0]);
        if AllLengths(rest, lens[0]) {
          assert forall k :: 1 <= k < |lens| ==> lens[k] == rest[k - 1];
          assert !Mismatch(lens);
        } else {
          var k :| 0 <= k < |rest| && rest[k] != lens[0];
          assert lens[k + 1] != lens[0];
        }
      }
    }
  }

  /** The tag lengths, `strlen(CPLGetXMLValue(psIter, "tag", ""))`. */
  function TagLengths(children: seq<XmlNode>): (lens: seq<nat>)
    ensures |lens| == |FieldDefnTags(children)|
    ensures forall k :: 0 <= k < |lens| ==> lens[k] == |FieldDefnTags(children)[k]|
  {
    var tags := FieldDefnTags(children);
    seq(|tags|, i requires 0 <= i < |tags| => |tags[i]|)
  }

  /** The inferred field-tag width, `None` on mixed tag sizes; 0 with no definition. */
  function InferTagWidth(children: seq<XmlNode>): (r: Option<nat>)
    ensures |FieldDefnTags(children)| == 0 ==> r == Some(0)
  {
    WidthScan(TagLengths(children), 0)
  }

  /** All definitions share one tag length `L`: the inferred width is `L`. */
  lemma UniformTagsGiveTheirLength(children: seq<XmlNode>, L: nat)
    requires |FieldDefnTags(children)| > 0
    requires forall k :: 0 <= k < |FieldDefnTags(children)| ==> |FieldDefnTags(children)[k]| == L
    ensures InferTagWidth(children) == Some(L)
  {
    var lens := TagLengths(children);
    if L == 0 {
      WidthScanCharacterised(lens);
    } else {
      assert WidthScan(lens, 0) == WidthScan(lens[1..], L);
      ScanFromWidth(lens[1..], L);
    }
  }

  /**
   The leader values: the first nine are given to `DDFModule::Initialize`,
   and `fieldControlLength` then to `SetFieldControlLength`.
   */
  datatype Leader = Leader(
    interchangeLevel: char,
    leaderIden: char,
    codeExtensionIndicator: char,
    versionNumber: char,
    appIndicator: char,
    extendedCharSet: string,
    sizeFieldLength: int,
    sizeFieldPos: int,
    sizeFieldTag: int,
    fieldControlLength: int)

  /**
   `CPLGetXMLValue(n, key, CPLSPrintf("%c", default))[0]`: the first character
   of the attribute, the terminating NUL when the attribute is empty, and the
   default when it is absent.
   */
  function FirstCharOr(n: XmlNode, key: string, default: char): (c: char)
    ensures Value(n, key).None? ==> c == default
    ensures Value(n, key).Some? && |Value(n, key).value| > 0 ==> c == Value(n, key).value[0]
    ensures Value(n, key) == Some("") ==> c == '\0'
  {
    var s := ValueOr(n, key, [default]);
    if |s| > 0 then s[0] else '\0'
  }

  /** `snprintf(buf, 4, "%s", s)`: at most the first three characters. */
  function CutToThree(s: string): (r: string)
    ensures |r| <= 3 && StartsWith(s, r)
    ensures |s| <= 3 ==> r == s
  {
    if |s| <= 3 then s else s[..3]
  }

  /**
   The leader of the module: each attribute of `DDFModule` overrides its
   default. An explicit `_sizeFieldTag` replaces the inferred tag width
   whatever it was, an explicit `_extendedCharSet` is cut to its first three
   characters, and each leader character is the first character of its
   attribute. The field control length defaults to the library's own value,
   which is a parameter.
   */
  function ModuleLeader(ddfModule: XmlNode, inferredTagWidth: nat, libraryFieldControlLength: int): (l: Leader)
    ensures Value(ddfModule, "_sizeFieldTag").Some? ==> l.sizeFieldTag == Atoi(Value(ddfModule, "_sizeFieldTag").value)
    ensures Value(ddfModule, "_sizeFieldTag").None? ==> l.sizeFieldTag == inferredTagWidth
    ensures Value(ddfModule, "_extendedCharSet").Some? ==>
              l.extendedCharSet == CutToThree(Value(ddfModule, "_extendedCharSet").value)
    ensures |l.extendedCharSet| <= 3
    ensures Value(ddfModule, "_interchangeLevel").Some? && |Value(ddfModule, "_interchangeLevel").value| > 0 ==>
              l.interchangeLevel == Value(ddfModule, "_interchangeLevel").value[0]
    ensures Value(ddfModule, "_leaderIden").Some? && |Value(ddfModule, "_leaderIden").value| > 0 ==>
              l.leaderIden == Value(ddfModule, "_leaderIden").value[0]
    ensures Value(ddfModule, "_inlineCodeExtensionIndicator").Some? &&
            |Value(ddfModule, "_inlineCodeExtensionIndicator").value| > 0 ==>
              l.codeExtensionIndicator == Value(ddfModule, "_inlineCodeExtensionIndicator").value[0]
    ensures Value(ddfModule, "_versionNumber").Some? && |Value(ddfModule, "_versionNumber").value| > 0 ==>
              l.versionNumber == Value(ddfModule, "_versionNumber").value[0]
    ensures Value(ddfModule, "_appIndicator").Some? && |Value(ddfModule, "_appIndicator").value| > 0 ==>
              l.appIndicator == Value(ddfModule, "_appIndicator").value[0]
    ensures Value(ddfModule, "_sizeFieldLength").Some? ==>
              l.sizeFieldLength == Atoi(Value(ddfModule, "_sizeFieldLength").value)
    ensures Value(ddfModule, "_sizeFieldPos").Some? ==>
              l.sizeFieldPos == Atoi(Value(ddfModule, "_sizeFieldPos").value)
    ensures Value(ddfModule, "_fieldControlLength").Some? ==>
              l.fieldControlLength == Atoi(Value(ddfModule, "_fieldControlLength").value)
  {
    Leader(
      FirstCharOr(ddfModule, "_interchangeLevel", '3'),
      FirstCharOr(ddfModule, "_leaderIden", 'L'),
      FirstCharOr(ddfModule, "_inlineCodeExtensionIndicator", 'E'),
      FirstCharOr(ddfModule, "_versionNumber", '1'),
      FirstCharOr(ddfModule, "_appIndicator", ' '),
      CutToThree(ValueOr(ddfModule, "_extendedCharSet", " ! ")),
      IntValueOr(ddfModule, "_sizeFieldLength", 3),
      IntValueOr(ddfModule, "_sizeFieldPos", 4),
      IntValueOr(ddfModule, "_sizeFieldTag", inferredTagWidth),
      IntValueOr(ddfModule, "_fieldControlLength", libraryFieldControlLength))
  }

  /** The keys of `DDFModule` the leader reads. */
  const LeaderKeys: set<string> := {
    "_interchangeLevel", "_leaderIden", "_inlineCodeExtensionIndicator", "_versionNumber",
    "_appIndicator", "_extendedCharSet", "_sizeFieldLength", "_sizeFieldPos", "_sizeFieldTag",
    "_fieldControlLength"}

  /** A module element with none of the leader attributes gets the documented defaults. */
  lemma LeaderDefaults(ddfModule: XmlNode, w: nat, fcl: int)
    requires forall key :: key in LeaderKeys ==> Value(ddfModule, key).None?
    ensures ModuleLeader(ddfModule, w, fcl) == Leader('3', 'L', 'E', '1', ' ', " ! ", 3, 4, w, fcl)
  {
    assert "_interchangeLevel" in LeaderKeys && "_leaderIden" in LeaderKeys;
    assert "_inlineCodeExtensionIndicator" in LeaderKeys && "_versionNumber" in LeaderKeys;
    assert "_appIndicator" in LeaderKeys && "_extendedCharSet" in LeaderKeys;
    assert "_sizeFieldLength" in LeaderKeys && "_sizeFieldPos" in LeaderKeys;
    assert "_sizeFieldTag" in LeaderKeys && "_fieldControlLength" in LeaderKeys;
  }
}
