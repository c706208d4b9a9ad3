/** The Python values that flow through the extractor: descriptor entries,
    ontology data, spreadsheet cells and the log document, with the parts of
    `str()`, `repr()` and truthiness the model needs. */
module PyValue {
  import opened Wrappers
  import PyStr

  datatype Value =
    | VNone
    | VBool(b: bool)
    | VInt(i: int)
      /** A float, carried by its `str()` text (float formatting is not modelled). */
    | VFloat(text: string)
    | VStr(s: string)
    | VList(items: seq<Value>)
    | VTuple(items: seq<Value>)
      /** A dict, as its (key, value) pairs in insertion order. */
    | VDict(entries: seq<(Value, Value)>)
      /** A datetime: its `str()` text and its `strftime('%d %B %Y')` text. */
    | VDateTime(text: string, dayMonthYear: string)
      /** Any other object (numpy array, DataFrame, exception, ...): its type
          name and its `str()` and `repr()` texts. */
    | VOther(typeName: string, text: string, reprText: string)

  /** Python's `str(v)`. */
  function Str(v: Value): string
    decreases v, 1
  {
    match v
    case VNone => "None"
    case VBool(b) => if b then "True" else "False"
    case VInt(i) => PyStr.IntToString(i)
    case VFloat(t) => t
    case VStr(s) => s
    case VList(items) => "[" + ReprItems(items) + "]"
    case VTuple(items) =>
      if |items| == 1 then "(" + Repr(items[0]) + ",)" else "(" + ReprItems(items) + ")"
    case VDict(entries) => "{" + ReprEntries(v, 0) + "}"
    case VDateTime(t, _) => t
    case VOther(_, t, _) => t
  }

  /** Python's `repr(v)`; strings are shown between single quotes. */
  function Repr(v: Value): string
    decreases v, 2
  {
    match v
    case VStr(s) => "'" + s + "'"
    case VDateTime(t, _) => "datetime.datetime(" + t + ")"
    case VOther(_, _, r) => r
    case _ => Str(v)
  }

  /** `', '.join(repr(x) for x in items)`. */
  function ReprItems(items: seq<Value>): string
    decreases items
  {
    if |items| == 0 then ""
    else if |items| == 1 then Repr(items[0])
    else Repr(items[0]) + ", " + ReprItems(items[1..])
  }

  /** `', '.join(f"{k!r}: {x!r}")` over the entries of a dict from index `from` on. */
  function ReprEntries(d: Value, from: nat): string
    requires d.VDict?
    decreases d, 0, |d.entries| - from
  {
    if from >= |d.entries| then ""
    else
      var e := d.entries[from];
      var first := Repr(e.0) + ": " + Repr(e.1);
      if from + 1 == |d.entries| then first else first + ", " + ReprEntries(d, from + 1)
  }

  /** Python's `bool(v)`. */
  predicate Truthy(v: Value) {
    match v
    case VNone => false
    case VBool(b) => b
    case VInt(i) => i != 0
    case VFloat(t) => t != "0.0" && t != "-0.0"
    case VStr(s) => |s| > 0
    case VList(items) => |items| > 0
    case VTuple(items) => |items| > 0
    case VDict(entries) => |entries| > 0
    case _ => true
  }

  /** `isinstance(v, (int, float, dict, str))`; `bool` is a subclass of `int`. */
  predicate IsScalarLike(v: Value) {
    v.VBool? || v.VInt? || v.VFloat? || v.VDict? || v.VStr?
  }

  /** The exceptions the modelled code can raise. */
  datatype PyError =
    | KeyError(key: Value)
    | ValueError(message: string)
    | IndexError(message: string)
    | TypeError(message: string)
    | AttributeError(message: string)
    | OtherError(typeName: string, message: string)

  function ErrorTypeName(e: PyError): string {
    match e
    case KeyError(_) => "KeyError"
    case ValueError(_) => "ValueError"
    case IndexError(_) => "IndexError"
    case TypeError(_) => "TypeError"
    case AttributeError(_) => "AttributeError"
    case OtherError(t, _) => t
  }

  /** `str(e)`: a KeyError shows the repr of its key, the others their message. */
  function ErrorStr(e: PyError): string {
    match e
    case KeyError(k) => Repr(k)
    case ValueError(m) => m
    case IndexError(m) => m
    case TypeError(m) => m
    case AttributeError(m) => m
    case OtherError(_, m) => m
  }

  /** `f"{type(e)} - {e}"`, the text the extraction log stores for an exception. */
  function ErrorText(e: PyError): (t: string)
    ensures PyStr.StartsWith(t, "<class '" + ErrorTypeName(e) + "'> - ")
    ensures PyStr.EndsWith(t, ErrorStr(e))
  {
    "<class '" + ErrorTypeName(e) + "'> - " + ErrorStr(e)
  }

  /** The exception object itself, as a value stored in a log entry. */
  function ErrorValue(e: PyError): Value {
    VOther(ErrorTypeName(e), ErrorStr(e), ErrorTypeName(e) + "(" + ErrorStr(e) + ")")
  }

  /** A list of strings as a Python list value. */
  function Strs(ids: seq<string>): (r: seq<Value>)
    ensures |r| == |ids| && forall i :: 0 <= i < |ids| ==> r[i] == VStr(ids[i])
  {
    seq(|ids|, i requires 0 <= i < |ids| => VStr(ids[i]))
  }
}
