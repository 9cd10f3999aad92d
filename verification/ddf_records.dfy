/**
 How 8211createfromxml turns one `DDFRecord` element into the calls it makes
 on a new record: the record's size overrides, then for each `DDFField` child
 either one raw payload (a `value` that is a `0x` hex literal) or one setter
 per `DDFSubfield` child, each addressed by (field name, field occurrence,
 subfield name, subfield occurrence).
 */
module DdfRecords {
  import opened Text
  import opened Decimal
  import opened HexLiteral
  import opened Occurrences

  /** The value handed to `SetStringSubfield`: text, or decoded bytes with their length. */
  datatype Payload = Chars(text: string) | Bytes(data: seq<byte>)

  /**
   One subfield setter call. The float path keeps the value's text: its
   conversion by `CPLAtof` is floating point and is not modelled.
   */
  datatype SubfieldCall =
    | SetFloatSubfield(subfield: string, occurrence: nat, literal: string)
    | SetIntSubfield(subfield: string, occurrence: nat, value: int)
    | SetStringSubfield(subfield: string, occurrence: nat, payload: Payload)

  /** The subfield types that lead to a setter whatever the value. */
  predicate IsPlainSubfieldType(t: string) {
    t == "float" || t == "integer" || t == "string"
  }

  /**
   The setter for one subfield of type `t` and text `v`, or `None` when the
   type is unknown or a `binary` value lacks the `0x` prefix: such a subfield
   produces no call at all.
   */
  function SubfieldSetter(name: string, occ: nat, t: string, v: string): (r: Option<SubfieldCall>)
    ensures r.Some? <==> IsPlainSubfieldType(t) || (t == "binary" && StartsWith(v, "0x"))
    ensures r.Some? ==> r.value.subfield == name && r.value.occurrence == occ
    ensures t == "float" ==> r == Some(SetFloatSubfield(name, occ, v))
    ensures t == "integer" ==> r == Some(SetIntSubfield(name, occ, Atoi(v)))
    ensures t == "string" ==> r == Some(SetStringSubfield(name, occ, Chars(v)))
    ensures t == "binary" && r.Some? ==>
              r.value.SetStringSubfield? && r.value.payload.Bytes? &&
              DecodeHexLiteral(v) == Some(r.value.payload.data)
  {
    if t == "float" then Some(SetFloatSubfield(name, occ, v))
    else if t == "integer" then Some(SetIntSubfield(name, occ, Atoi(v)))
    else if t == "string" then Some(SetStringSubfield(name, occ, Chars(v)))
    else if t == "binary" then
      match DecodeHexLiteral(v)
      case Some(data) => Some(SetStringSubfield(name, occ, Bytes(data)))
      case None => None
    else None
  }

  /** The calls actually made, in order: the `Some` entries. */
  function KeepSome(opts: seq<Option<SubfieldCall>>): (r: seq<SubfieldCall>)
    ensures |r| <= |opts|
    ensures forall x :: x in r <==> Some(x) in opts
  {
    if |opts| == 0 then []
    else
      var rest := KeepSome(opts[1..]);
      assert forall x :: Some(x) in opts <==> opts[0] == Some(x) || Some(x) in opts[1..];
      if opts[0].Some? then [opts[0].value] + rest else rest
  }

  /** How many of `opts` are `Some`. */
  function SomeCount(opts: seq<Option<SubfieldCall>>): nat {
    if |opts| == 0 then 0 else (if opts[0].Some? then 1 else 0) + SomeCount(opts[1..])
  }

  /**
   `KeepSome` is the ordered filter: it keeps one call per `Some`, and the
   call of position `i` comes after those of the `Some`s before `i`.
   */
  lemma {:induction false} KeepSomeInOrder(opts: seq<Option<SubfieldCall>>, i: nat)
    requires i < |opts| && opts[i].Some?
    ensures |KeepSome(opts)| == SomeCount(opts)
    ensures SomeCount(opts[..i]) < |KeepSome(opts)| && KeepSome(opts)[SomeCount(opts[..i])] == opts[i].value
    decreases i
  {
    KeepSomeCount(opts);
    if i > 0 {
      KeepSomeInOrder(opts[1..], i - 1);
      assert opts[..i][1..] == opts[1..][..i - 1];
      assert opts[1..][i - 1] == opts[i];
    }
  }

  lemma {:induction false} KeepSomeCount(opts: seq<Option<SubfieldCall>>)
    ensures |KeepSome(opts)| == SomeCount(opts)
    decreases |opts|
  {
    if |opts| > 0 {
      KeepSomeCount(opts[1..]);
    }
  }

  /** The names of the `DDFSubfield` children, counted whatever their type. */
  function SubfieldNames(children: seq<XmlNode>): (names: seq<string>)
    ensures |names| == |ElementsNamed(children, "DDFSubfield")|
  {
    var es := ElementsNamed(children, "DDFSubfield");
    seq(|es|, i requires 0 <= i < |es| => ValueOr(es[i], "name", ""))
  }

  /** The setter (if any) of each `DDFSubfield` child, before dropping the `None`s. */
  function SubfieldSetters(children: seq<XmlNode>): (r: seq<Option<SubfieldCall>>)
    ensures |r| == |SubfieldNames(children)|
  {
    var es := ElementsNamed(children, "DDFSubfield");
    var names := SubfieldNames(children);
    var occ := Number(names);
    seq(|es|, i requires 0 <= i < |es| =>
      SubfieldSetter(names[i], occ[i], ValueOr(es[i], "type", ""), OwnText(es[i])))
  }

  /** The setter calls of one structured field, in document order. */
  function TranslateSubfields(children: seq<XmlNode>): seq<SubfieldCall> {
    KeepSome(SubfieldSetters(children))
  }

  /**
   Every setter call addresses its subfield by name and by the number of
   earlier `DDFSubfield` children of the same name in the same field, those
   of an unknown type included: a skipped subfield still uses up an
   occurrence, and the counters start again for every field.
   */
  lemma SubfieldCallOccurrences(children: seq<XmlNode>)
    ensures forall c :: c in TranslateSubfields(children) ==>
              exists i :: 0 <= i < |SubfieldNames(children)| &&
                c.subfield == SubfieldNames(children)[i] &&
                c.occurrence == CountOf(SubfieldNames(children)[..i], SubfieldNames(children)[i])
  {
    var names := SubfieldNames(children);
    var setters := SubfieldSetters(children);
    forall c | c in TranslateSubfields(children)
      ensures exists i :: 0 <= i < |names| && c.subfield == names[i] && c.occurrence == CountOf(names[..i], names[i])
    {
      assert Some(c) in setters;
      var i :| 0 <= i < |setters| && setters[i] == Some(c);
      NumberIsOccurrenceIndex(names, i);
    }
  }

  /** A field's content: a raw payload or subfield setters, never both. */
  datatype FieldBody = Raw(data: seq<byte>) | Subfields(calls: seq<SubfieldCall>)

  /** `AddField` followed by the content calls for field occurrence `occurrence` of `name`. */
  datatype FieldCall = FieldCall(name: string, occurrence: nat, body: FieldBody)

  /**
   One `DDFField` element. The raw path is taken exactly when the element has
   a `value` starting with the case-sensitive "0x"; otherwise the subfields
   are used.
   */
  function TranslateField(n: XmlNode, occ: nat): (f: FieldCall)
    ensures f.name == ValueOr(n, "name", "") && f.occurrence == occ
    ensures f.body.Raw? <==> Value(n, "value").Some? && StartsWith(Value(n, "value").value, "0x")
    ensures f.body.Raw? ==> DecodeHexLiteral(Value(n, "value").value) == Some(f.body.data)
    ensures f.body.Subfields? ==> f.body.calls == TranslateSubfields(Children(n))
  {
    var raw := match Value(n, "value")
      case Some(v) => DecodeHexLiteral(v)
      case None => None;
    var body := match raw
      case Some(data) => Raw(data)
      case None => Subfields(TranslateSubfields(Children(n)));
    FieldCall(ValueOr(n, "name", ""), occ, body)
  }

  /** The size overrides `SetSizeFieldLength`, `SetSizeFieldPos`, `SetSizeFieldTag`. */
  datatype RecordSizes = RecordSizes(fieldLength: int, fieldPos: int, fieldTag: int)

  datatype RecordPlan = RecordPlan(sizes: RecordSizes, fields: seq<FieldCall>)

  /**
   Each size attribute of `DDFRecord` replaces the record's current value,
   which an absent attribute leaves as it was.
   */
  function RecordSizesOf(rec: XmlNode, current: RecordSizes): (s: RecordSizes)
    ensures Value(rec, "_sizeFieldLength").None? ==> s.fieldLength == current.fieldLength
    ensures Value(rec, "_sizeFieldPos").None? ==> s.fieldPos == current.fieldPos
    ensures Value(rec, "_sizeFieldTag").None? ==> s.fieldTag == current.fieldTag
    ensures Value(rec, "_sizeFieldLength").Some? ==> s.fieldLength == Atoi(Value(rec, "_sizeFieldLength").value)
    ensures Value(rec, "_sizeFieldPos").Some? ==> s.fieldPos == Atoi(Value(rec, "_sizeFieldPos").value)
    ensures Value(rec, "_sizeFieldTag").Some? ==> s.fieldTag == Atoi(Value(rec, "_sizeFieldTag").value)
  {
    RecordSizes(
      IntValueOr(rec, "_sizeFieldLength", current.fieldLength),
      IntValueOr(rec, "_sizeFieldPos", current.fieldPos),
      IntValueOr(rec, "_sizeFieldTag", current.fieldTag))
  }

  /** The names of the `DDFField` children of a record. */
  function FieldNames(rec: XmlNode): (names: seq<string>)
    ensures |names| == |ElementsNamed(Children(rec), "DDFField")|
  {
    var es := ElementsNamed(Children(rec), "DDFField");
    seq(|es|, i requires 0 <= i < |es| => ValueOr(es[i], "name", ""))
  }

  /** The first of `names` that is not among the `defined` tags. */
  function FirstUnresolved(names: seq<string>, defined: seq<string>): (r: Option<string>)
    ensures r.None? <==> forall k :: 0 <= k < |names| ==> names[k] in defined
    ensures r.Some? ==> r.value !in defined
    ensures r.Some? ==>
              exists k :: 0 <= k < |names| && names[k] == r.value && forall j :: 0 <= j < k ==> names[j] in defined
  {
    if |names| == 0 then None
    else if names[0] !in defined then Some(names[0])
    else
      var r := FirstUnresolved(names[1..], defined);
      if r.Some? then
        var k :| 0 <= k < |names[1..]| && names[1..][k] == r.value && forall j :: 0 <= j < k ==> names[1..][j] in defined;
        assert names[k + 1] == r.value && forall j :: 0 <= j < k + 1 ==> names[j] in defined;
        r
      else r
  }

  /**
   One `DDFRecord` element, given the tags defined so far (a field name
   resolves when it is one of them) and the record's current sizes. The
   record fails on the first field whose name does not resolve; otherwise it
   has one field call per `DDFField` child, in order.
   */
  function TranslateRecord(rec: XmlNode, defined: seq<string>, current: RecordSizes): (r: Result<RecordPlan, string>)
    ensures r.Ok? <==> forall k :: 0 <= k < |FieldNames(rec)| ==> FieldNames(rec)[k] in defined
    ensures r.Err? ==> r.error !in defined && r.error in FieldNames(rec)
    ensures r.Ok? ==> |r.value.fields| == |FieldNames(rec)| && r.value.sizes == RecordSizesOf(rec, current)
    ensures r.Ok? ==> forall k :: 0 <= k < |r.value.fields| ==> r.value.fields[k].name == FieldNames(rec)[k]
    ensures r.Ok? ==> forall k :: 0 <= k < |r.value.fields| ==>
              r.value.fields[k] == TranslateField(ElementsNamed(Children(rec), "DDFField")[k], Number(FieldNames(rec))[k])
    ensures r.Err? ==> Some(r.error) == FirstUnresolved(FieldNames(rec), defined)
  {
    var es := ElementsNamed(Children(rec), "DDFField");
    var names := FieldNames(rec);
    match FirstUnresolved(names, defined)
    case Some(m) => Err(m)
    case None =>
      var occ := Number(names);
      Ok(RecordPlan(
        RecordSizesOf(rec, current),
        seq(|es|, i requires 0 <= i < |es| => TranslateField(es[i], occ[i]))))
  }

  /**
   Within one record, the k-th `DDFField` of a given name (counting from 0)
   is field occurrence k; the counters start again for every record.
   */
  lemma FieldOccurrences(rec: XmlNode, defined: seq<string>, current: RecordSizes, i: nat)
    requires forall k :: 0 <= k < |FieldNames(rec)| ==> FieldNames(rec)[k] in defined
    requires i < |FieldNames(rec)|
    ensures TranslateRecord(rec, defined, current).Ok?
    ensures TranslateRecord(rec, defined, current).value.fields[i].occurrence
              == CountOf(FieldNames(rec)[..i], FieldNames(rec)[i])
  {
    NumberIsOccurrenceIndex(FieldNames(rec), i);
  }

  /**
   The raw and structured paths are told apart by the value alone: a field
   whose `value` is "0x" followed by the upper-case hex of some bytes is
   written as those bytes, one with no `value` from its subfields; and a
   `binary` subfield holding such a literal sets those bytes.
   */
  lemma RawFieldRoundTrip(name: string, data: seq<byte>, children: seq<XmlNode>, occ: nat)
    ensures TranslateField(Element("DDFField", map["name" := name, "value" := "0x" + EncodeUpperHex(data)], "", children), occ)
              == FieldCall(name, occ, Raw(data))
    ensures TranslateField(Element("DDFField", map["name" := name], "", children), occ)
              == FieldCall(name, occ, Subfields(TranslateSubfields(children)))
    ensures SubfieldSetter(name, occ, "binary", "0x" + EncodeUpperHex(data)) == Some(SetStringSubfield(name, occ, Bytes(data)))
  {
    HexLiteralRoundTrip(data);
  }
}
