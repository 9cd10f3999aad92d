/**
 Shared vocabulary of the model: option and result wrappers, bytes, the ASCII
 character classes of the C library (in the "C" locale), and the abstract XML
 tree both tools read their input from.
 */
module Text {

  /** A value that may be missing (a `NULL` pointer in C). */
  datatype Option<+T> = None | Some(value: T) {
    function GetOr(default: T): T {
      match this
      case Some(v) => v
      case None => default
    }
  }

  /** An outcome that is either a value or an error. */
  datatype Result<+T, +E> = Ok(value: T) | Err(error: E)

  newtype byte = x: int | 0 <= x < 256

  predicate IsUpper(c: char) { 'A' <= c <= 'Z' }
  predicate IsLower(c: char) { 'a' <= c <= 'z' }

  /** `isalpha` in the "C" locale. */
  predicate IsAlpha(c: char) { IsUpper(c) || IsLower(c) }

  /** `isdigit`. */
  predicate IsDigit(c: char) { '0' <= c <= '9' }

  /** `isalnum` in the "C" locale. */
  predicate IsAlnum(c: char) { IsAlpha(c) || IsDigit(c) }

  /** `isspace` in the "C" locale. */
  predicate IsSpace(c: char) {
    c == ' ' || c == '\t' || c == '\n' || c == '\r' || c == '\U{B}' || c == '\U{C}'
  }

  /** `STARTS_WITH(s, prefix)`: a case-sensitive prefix test. */
  predicate StartsWith(s: string, prefix: string) {
    |prefix| <= |s| && s[..|prefix|] == prefix
  }

  function ToLower(c: char): char {
    if IsUpper(c) then (c as int + 32) as char else c
  }

  /** `EQUAL(a, b)`: string equality ignoring ASCII case. */
  predicate EqualNoCase(a: string, b: string) {
    |a| == |b| && forall i :: 0 <= i < |a| ==> ToLower(a[i]) == ToLower(b[i])
  }

  /**
   An already parsed XML node. For an element, `values` holds what a lookup of a
   key on the node finds (an attribute or the text of a child element, the
   lookup being done by the XML library), `text` is the node's own value, and
   `children` are its child nodes in document order. Text, attribute and comment
   nodes are not inspected by either tool and are all `NonElement`.
   */
  datatype XmlNode =
    | Element(name: string, values: map<string, string>, text: string, children: seq<XmlNode>)
    | NonElement

  /** The value found for `key` on `n`, or `None` (the library returning `NULL`). */
  function Value(n: XmlNode, key: string): Option<string> {
    if n.Element? && key in n.values then Some(n.values[key]) else None
  }

  /** The value found for `key` on `n`, or `default`. */
  function ValueOr(n: XmlNode, key: string, default: string): string {
    Value(n, key).GetOr(default)
  }

  /** The own text of an element, "" when it has none. */
  function OwnText(n: XmlNode): string {
    if n.Element? then n.text else ""
  }

  function Children(n: XmlNode): seq<XmlNode> {
    if n.Element? then n.children else []
  }

  /** `eType == CXT_Element && strcmp(pszValue, name) == 0`. */
  predicate IsElementNamed(n: XmlNode, name: string) {
    n.Element? && n.name == name
  }

  /**
   The children that are elements named `name`, in document order: the filter
   every child loop of both tools applies before doing anything.
   */
  function ElementsNamed(children: seq<XmlNode>, name: string): (r: seq<XmlNode>)
    ensures |r| <= |children|
    ensures forall k :: 0 <= k < |r| ==> IsElementNamed(r[k], name)
    ensures forall x :: x in children && IsElementNamed(x, name) ==> x in r
    ensures forall x :: x in r ==> x in children
  {
    if |children| == 0 then []
    else
      var rest := ElementsNamed(children[1..], name);
      if IsElementNamed(children[0], name) then [children[0]] + rest else rest
  }
}
