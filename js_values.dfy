/** The loosely typed values that flow through form fields (`any` in the
    components): what counts as falsy, how `Array.prototype.join` writes an
    element, and property access that throws on null. */
module JsValues {
  import opened Wrappers
  import opened Numbers
  import Strings

  datatype Value =
    | Undefined
    | Null
    | Bool(b: bool)
    | Num(n: JsNumber)
    | Str(s: string)
    | Arr(items: seq<Value>)
    | Obj(props: map<string, Value>)

  /** JavaScript truthiness: undefined, null, false, 0, NaN and "" are falsy;
      every array and object is truthy, even an empty one. */
  predicate Truthy(v: Value)
  {
    match v
    case Undefined => false
    case Null => false
    case Bool(b) => b
    case Num(n) => n.Finite? && n.value != 0
    case Str(s) => s != ""
    case Arr(_) => true
    case Obj(_) => true
  }

  /** How `Array.prototype.join` writes one element: null and undefined
      become the empty string, nested arrays are joined with ",". */
  function ElementText(v: Value): string
    decreases v, 1
  {
    match v
    case Undefined => ""
    case Null => ""
    case Bool(b) => if b then "true" else "false"
    case Num(n) => NumberToString(n)
    case Str(s) => s
    case Arr(items) => JoinValues(items, ",")
    case Obj(_) => "[object Object]"
  }

  /** `items.join(sep)` on an array of values. */
  function JoinValues(items: seq<Value>, sep: string): (r: string)
    decreases items, 0
  {
    if |items| == 0 then ""
    else if |items| == 1 then ElementText(items[0])
    else ElementText(items[0]) + sep + JoinValues(items[1..], sep)
  }

  /** `JoinValues` is `Strings.Join` of the element texts. */
  lemma {:induction false} JoinValuesIsJoin(items: seq<Value>, sep: string)
    ensures JoinValues(items, sep) == Strings.Join(ElementTexts(items), sep)
  {
    if |items| > 1 {
      JoinValuesIsJoin(items[1..], sep);
      assert ElementTexts(items)[1..] == ElementTexts(items[1..]);
    }
  }

  /** `${v}` / `String(v)`: like an array element, except that undefined and
      null are written out. */
  function TemplateText(v: Value): string
  {
    match v
    case Undefined => "undefined"
    case Null => "null"
    case _ => ElementText(v)
  }

  /** The text of every element, in order. */
  function ElementTexts(items: seq<Value>): (r: seq<string>)
    ensures |r| == |items|
    ensures forall i :: 0 <= i < |items| ==> r[i] == ElementText(items[i])
  {
    seq(|items|, i requires 0 <= i < |items| => ElementText(items[i]))
  }

  /** `v.name`: reading a property of null or undefined throws a TypeError;
      a missing property, or any property of a primitive or an array that
      the component asks for, reads as undefined. */
  function Prop(v: Value, name: string): (r: Result<Value, string>)
    ensures r.Failure? <==> v == Null || v == Undefined
    ensures v.Obj? && name in v.props ==> r == Success(v.props[name])
  {
    match v
    case Undefined => Failure("TypeError")
    case Null => Failure("TypeError")
    case Obj(props) => Success(if name in props then props[name] else Undefined)
    case _ => Success(Undefined)
  }
}
