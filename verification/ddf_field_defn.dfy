/**
 How 8211createfromxml turns one `DDFFieldDefn` element into the calls it
 makes on a new field definition: the structure and type codes read from
 their names, the array descriptor and format controls adjusted to the
 structure, then one subfield per `DDFSubfieldDefn` child.
 */
module DdfFieldDefn {
  import opened Text

  /** `DDF_data_struct_code`. */
  datatype StructCode = Elementary | Vector | Array | Concatenated

  /** `DDF_data_type_code`. */
  datatype TypeCode =
    | CharString | ImplicitPoint | ExplicitPoint | ExplicitPointScaled
    | CharBitString | BitString | MixedDataType

  /** The name the XML dump uses for each structure code. */
  function StructCodeName(c: StructCode): string {
    match c
    case Elementary => "elementary"
    case Vector => "vector"
    case Array => "array"
    case Concatenated => "concatenated"
  }

  /** The name the XML dump uses for each type code. */
  function TypeCodeName(c: TypeCode): string {
    match c
    case CharString => "char_string"
    case ImplicitPoint => "implicit_point"
    case ExplicitPoint => "explicit_point"
    case ExplicitPointScaled => "explicit_point_scaled"
    case CharBitString => "char_bit_string"
    case BitString => "bit_string"
    case MixedDataType => "mixed_data_type"
  }

  predicate IsStructCodeName(s: string) {
    s == "elementary" || s == "vector" || s == "array" || s == "concatenated"
  }

  predicate IsTypeCodeName(s: string) {
    || s == "char_string" || s == "implicit_point" || s == "explicit_point"
    || s == "explicit_point_scaled" || s == "char_bit_string" || s == "bit_string"
    || s == "mixed_data_type"
  }

  /**
   The structure code of `dataStructCode`: the code whose name it is exactly
   (case-sensitive), and elementary for every other string, "" included.
   */
  function ParseStructCode(s: string): (c: StructCode)
    ensures IsStructCodeName(s) ==> StructCodeName(c) == s
    ensures !IsStructCodeName(s) ==> c == Elementary
  {
    if s == "vector" then Vector
    else if s == "array" then Array
    else if s == "concatenated" then Concatenated
    else Elementary
  }

  /**
   The type code of `dataTypeCode`: the code whose name it is exactly, and
   `char_string` for every other string.
   */
  function ParseTypeCode(s: string): (c: TypeCode)
    ensures IsTypeCodeName(s) ==> TypeCodeName(c) == s
    ensures !IsTypeCodeName(s) ==> c == CharString
  {
    if s == "implicit_point" then ImplicitPoint
    else if s == "explicit_point" then ExplicitPoint
    else if s == "explicit_point_scaled" then ExplicitPointScaled
    else if s == "char_bit_string" then CharBitString
    else if s == "bit_string" then BitString
    else if s == "mixed_data_type" then MixedDataType
    else CharString
  }

  /** Every code is read back from its own name. */
  lemma CodeNamesRoundTrip(sc: StructCode, tc: TypeCode)
    ensures ParseStructCode(StructCodeName(sc)) == sc
    ensures ParseTypeCode(TypeCodeName(tc)) == tc
    ensures IsStructCodeName(StructCodeName(sc)) && IsTypeCodeName(TypeCodeName(tc))
  {
  }

  /**
   The array descriptor handed to `Create`: "" for a vector, "*" for an array,
   the XML `arrayDescr` value (default "") for the other structures.
   */
  function ArrayDescriptor(sc: StructCode, xmlValue: string): (d: string)
    ensures sc == Vector ==> d == ""
    ensures sc == Array ==> d == "*"
    ensures sc == Elementary || sc == Concatenated ==> d == xmlValue
  {
    match sc
    case Vector => ""
    case Array => "*"
    case _ => xmlValue
  }

  /** A subfield definition: `AddSubfield(name, format)`. */
  datatype SubfieldDefn = SubfieldDefn(name: string, format: string)

  /**
   What the tool asks of one field definition, in call order: `Create` with
   `createFormatControls` (`None` is the `NULL` pointer), then `AddSubfield`
   for each of `subfields`, then `SetFormatControls(laterFormatControls)`
   when that is present.
   */
  datatype FieldDefnPlan = FieldDefnPlan(
    tag: string,
    fieldName: string,
    arrayDescr: string,
    structCode: StructCode,
    typeCode: TypeCode,
    createFormatControls: Option<string>,
    subfields: seq<SubfieldDefn>,
    laterFormatControls: Option<string>)

  function ToSubfieldDefn(n: XmlNode): SubfieldDefn {
    SubfieldDefn(ValueOr(n, "name", ""), ValueOr(n, "format", ""))
  }

  /** One subfield per `DDFSubfieldDefn` child, in document order. */
  function SubfieldDefns(children: seq<XmlNode>): (r: seq<SubfieldDefn>)
    ensures |r| == |ElementsNamed(children, "DDFSubfieldDefn")|
    ensures forall k :: 0 <= k < |r| ==> r[k] == ToSubfieldDefn(ElementsNamed(children, "DDFSubfieldDefn")[k])
  {
    var es := ElementsNamed(children, "DDFSubfieldDefn");
    seq(|es|, i requires 0 <= i < |es| => ToSubfieldDefn(es[i]))
  }

  /**
   The plan for one `DDFFieldDefn` element. Format controls reach `Create`
   only for an elementary field, but any `formatControls` present is applied
   again after the subfields whatever the structure.
   */
  function TranslateFieldDefn(n: XmlNode): (p: FieldDefnPlan)
    ensures p.tag == ValueOr(n, "tag", "") && p.fieldName == ValueOr(n, "fieldName", "")
    ensures p.structCode == ParseStructCode(ValueOr(n, "dataStructCode", ""))
    ensures p.typeCode == ParseTypeCode(ValueOr(n, "dataTypeCode", ""))
    ensures p.createFormatControls.Some? <==>
              p.structCode == Elementary && Value(n, "formatControls").Some?
    ensures p.createFormatControls.Some? ==> p.createFormatControls == Value(n, "formatControls")
    ensures p.laterFormatControls == Value(n, "formatControls")
    ensures p.arrayDescr == ArrayDescriptor(p.structCode, ValueOr(n, "arrayDescr", ""))
    ensures p.subfields == SubfieldDefns(Children(n))
    ensures IsNormalised(p)
  {
    var sc := ParseStructCode(ValueOr(n, "dataStructCode", ""));
    var tc := ParseTypeCode(ValueOr(n, "dataTypeCode", ""));
    var fc := Value(n, "formatControls");
    FieldDefnPlan(
      ValueOr(n, "tag", ""),
      ValueOr(n, "fieldName", ""),
      ArrayDescriptor(sc, ValueOr(n, "arrayDescr", "")),
      sc, tc,
      if sc != Elementary then None else fc,
      SubfieldDefns(Children(n)),
      fc)
  }

  /**
   A plan in the form the translation gives: the descriptor fixed for a
   vector or an array, and the format controls passed to `Create` exactly
   for an elementary field, the same ones applied afterwards.
   */
  predicate IsNormalised(p: FieldDefnPlan) {
    && (p.structCode == Vector ==> p.arrayDescr == "")
    && (p.structCode == Array ==> p.arrayDescr == "*")
    && p.createFormatControls == (if p.structCode == Elementary then p.laterFormatControls else None)
  }

  /** The `DDFSubfieldDefn` elements holding `sfs`, in order. */
  function SubfieldElements(sfs: seq<SubfieldDefn>): (es: seq<XmlNode>)
    ensures |es| == |sfs|
  {
    seq(|sfs|, i requires 0 <= i < |sfs| =>
      Element("DDFSubfieldDefn", map["name" := sfs[i].name, "format" := sfs[i].format], "", []))
  }

  /** The `DDFFieldDefn` element holding a plan's values, as a dump of the field would. */
  function FieldDefnElement(p: FieldDefnPlan): XmlNode {
    var attrs := map["tag" := p.tag, "fieldName" := p.fieldName, "arrayDescr" := p.arrayDescr,
                     "dataStructCode" := StructCodeName(p.structCode), "dataTypeCode" := TypeCodeName(p.typeCode)];
    Element("DDFFieldDefn",
      if p.laterFormatControls.Some? then attrs["formatControls" := p.laterFormatControls.value] else attrs,
      "", SubfieldElements(p.subfields))
  }

  lemma {:induction false} ElementsNamedOfNamed(es: seq<XmlNode>, name: string)
    requires forall k :: 0 <= k < |es| ==> IsElementNamed(es[k], name)
    ensures ElementsNamed(es, name) == es
    decreases |es|
  {
    if |es| > 0 {
      ElementsNamedOfNamed(es[1..], name);
      assert es == [es[0]] + es[1..];
    }
  }

  /** The `DDFSubfieldDefn` elements of `sfs` read back as `sfs`. */
  lemma SubfieldElementsRoundTrip(sfs: seq<SubfieldDefn>)
    ensures SubfieldDefns(SubfieldElements(sfs)) == sfs
  {
    var es := SubfieldElements(sfs);
    ElementsNamedOfNamed(es, "DDFSubfieldDefn");
    assert forall k :: 0 <= k < |sfs| ==> ToSubfieldDefn(es[k]) == sfs[k];
  }

  /** The attributes of a plan's element read back as the plan's values. */
  lemma FieldDefnElementValues(p: FieldDefnPlan)
    ensures ValueOr(FieldDefnElement(p), "tag", "") == p.tag
    ensures ValueOr(FieldDefnElement(p), "fieldName", "") == p.fieldName
    ensures ValueOr(FieldDefnElement(p), "arrayDescr", "") == p.arrayDescr
    ensures ValueOr(FieldDefnElement(p), "dataStructCode", "") == StructCodeName(p.structCode)
    ensures ValueOr(FieldDefnElement(p), "dataTypeCode", "") == TypeCodeName(p.typeCode)
    ensures Value(FieldDefnElement(p), "formatControls") == p.laterFormatControls
    ensures Children(FieldDefnElement(p)) == SubfieldElements(p.subfields)
  {
  }

  /**
   Translating the element that holds a normalised plan gives that plan
   back: with the normalisation `TranslateFieldDefn` ensures, the normalised
   plans are exactly the translations.
   */
  lemma FieldDefnRoundTrip(p: FieldDefnPlan)
    requires IsNormalised(p)
    ensures TranslateFieldDefn(FieldDefnElement(p)) == p
  {
    FieldDefnElementValues(p);
    SubfieldElementsRoundTrip(p.subfields);
    CodeNamesRoundTrip(p.structCode, p.typeCode);
  }
}
