/** D-Bus signatures of type annotations (dbus.py) and why they can be decoded. */
module Signature {
  import opened Prelude

  /** A type annotation; `Other` has no origin, or one that is not supported. */
  datatype Annotation =
    | Int | Float | Bool | Str | Other
    | Union(members: seq<Annotation>)
    | Mapping(key: Annotation, value: Annotation)
    | Tuple(items: seq<Annotation>)
    | Sequence(item: Annotation)

  /** None is the TypeError. */
  function Signature(t: Annotation): Option<string>
    decreases t
  {
    match t
    case Int => Some("i")
    case Float => Some("d")
    case Bool => Some("b")
    case Str => Some("s")
    case Other => None
    case Union(_) => Some("v")
    case Mapping(key, value) =>
      var k := Signature(key);
      var v := Signature(value);
      if k.None? || v.None? then None else Some("a{" + k.value + v.value + "}")
    case Tuple(items) =>
      var all := SignatureAll(items);
      if all.None? then None else Some("(" + all.value + ")")
    case Sequence(item) =>
      var s := Signature(item);
      if s.None? then None else Some("a" + s.value)
  }

  function SignatureAll(items: seq<Annotation>): Option<string>
    decreases items
  {
    if items == [] then Some("")
    else
      var first := Signature(items[0]);
      var rest := SignatureAll(items[1..]);
      if first.None? || rest.None? then None else Some(first.value + rest.value)
  }

  /** Every part outside a union has a type of its own. */
  predicate Supported(t: Annotation)
    decreases t
  {
    match t
    case Other => false
    case Mapping(key, value) => Supported(key) && Supported(value)
    case Tuple(items) => forall i | 0 <= i < |items| :: Supported(items[i])
    case Sequence(item) => Supported(item)
    case _ => true
  }

  // ---------------------------------------------------------------- what a signature says

  /** D-Bus types; all unions are variants and all sequences arrays. */
  datatype Shape =
    | Int32 | Double | Boolean | Text | Variant
    | Dict(key: Shape, value: Shape)
    | Struct(items: seq<Shape>)
    | Array(item: Shape)

  function ShapeOf(t: Annotation): Shape
    requires Supported(t)
    decreases t
  {
    match t
    case Int => Int32
    case Float => Double
    case Bool => Boolean
    case Str => Text
    case Union(_) => Variant
    case Mapping(key, value) => Dict(ShapeOf(key), ShapeOf(value))
    case Tuple(items) => Struct(seq(|items|, i requires 0 <= i < |items| => ShapeOf(items[i])))
    case Sequence(item) => Array(ShapeOf(item))
  }

  function Print(s: Shape): string
    decreases s
  {
    match s
    case Int32 => "i"
    case Double => "d"
    case Boolean => "b"
    case Text => "s"
    case Variant => "v"
    case Dict(key, value) => "a{" + Print(key) + Print(value) + "}"
    case Struct(items) => "(" + PrintAll(items) + ")"
    case Array(item) => "a" + Print(item)
  }

  function PrintAll(items: seq<Shape>): string
    decreases items
  {
    if items == [] then "" else Print(items[0]) + PrintAll(items[1..])
  }

  /** An annotation has a signature if and only if all its parts have one, and it says the shape. */
  lemma {:induction false} SignaturePrintsShape(t: Annotation)
    ensures Signature(t).Some? <==> Supported(t)
    ensures Supported(t) ==> Signature(t) == Some(Print(ShapeOf(t)))
    decreases t
  {
    match t
    case Mapping(key, value) =>
      SignaturePrintsShape(key);
      SignaturePrintsShape(value);
    case Tuple(items) =>
      SignatureAllPrints(items);
    case Sequence(item) =>
      SignaturePrintsShape(item);
    case _ =>
  }

  predicate AllSupported(items: seq<Annotation>) {
    forall i | 0 <= i < |items| :: Supported(items[i])
  }

  function Shapes(items: seq<Annotation>): seq<Shape>
    requires AllSupported(items)
  {
    seq(|items|, i requires 0 <= i < |items| => ShapeOf(items[i]))
  }

  lemma {:induction false} SignatureAllPrints(items: seq<Annotation>)
    ensures SignatureAll(items).Some? <==> AllSupported(items)
    ensures AllSupported(items) ==> SignatureAll(items) == Some(PrintAll(Shapes(items)))
    decreases items
  {
    if items != [] {
      SignaturePrintsShape(items[0]);
      SignatureAllPrints(items[1..]);
      assert AllSupported(items) <==> Supported(items[0]) && AllSupported(items[1..]);
      if AllSupported(items) { assert Shapes(items) == [ShapeOf(items[0])] + Shapes(items[1..]); }
    }
  }

  // ---------------------------------------------------------------- the decoder

  datatype Decoded = Decoded(shape: Shape, rest: string) | Malformed

  datatype DecodedAll = DecodedAll(shapes: seq<Shape>, rest: string) | MalformedAll

  /** Reads one complete type from the start of a text. */
  function Decode(s: string): (d: Decoded)
    ensures d.Decoded? ==> |d.rest| < |s|
    decreases |s|, 0
  {
    if s == "" then Malformed
    else if s[0] == 'i' then Decoded(Int32, s[1..])
    else if s[0] == 'd' then Decoded(Double, s[1..])
    else if s[0] == 'b' then Decoded(Boolean, s[1..])
    else if s[0] == 's' then Decoded(Text, s[1..])
    else if s[0] == 'v' then Decoded(Variant, s[1..])
    else if s[0] == '(' then
      var items := DecodeAll(s[1..]);
      if items.DecodedAll? then Decoded(Struct(items.shapes), items.rest) else Malformed
    else if s[0] == 'a' && |s| > 1 && s[1] == '{' then
      var key := Decode(s[2..]);
      if key.Malformed? then Malformed
      else
        var value := Decode(key.rest);
        if value.Malformed? || value.rest == "" || value.rest[0] != '}' then Malformed
        else Decoded(Dict(key.shape, value.shape), value.rest[1..])
    else if s[0] == 'a' then
      var item := Decode(s[1..]);
      if item.Decoded? then Decoded(Array(item.shape), item.rest) else Malformed
    else Malformed
  }

  /** Reads types up to and with a closing parenthesis. */
  function DecodeAll(s: string): (d: DecodedAll)
    ensures d.DecodedAll? ==> |d.rest| < |s|
    decreases |s|, 1
  {
    if s == "" then MalformedAll
    else if s[0] == ')' then DecodedAll([], s[1..])
    else
      var first := Decode(s);
      if first.Malformed? then MalformedAll
      else
        var others := DecodeAll(first.rest);
        if others.MalformedAll? then MalformedAll
        else DecodedAll([first.shape] + others.shapes, others.rest)
  }

  /** The first character of a printed type. */
  lemma PrintStarts(s: Shape)
    ensures Print(s) != "" && Print(s)[0] != ')' && Print(s)[0] != '{' && Print(s)[0] != '}'
  {
  }

  lemma DecodeDict(k: string, v: string, key: Shape, value: Shape, suffix: string)
    requires Decode(k + (v + (['}'] + suffix))) == Decoded(key, v + (['}'] + suffix))
    requires Decode(v + (['}'] + suffix)) == Decoded(value, ['}'] + suffix)
    ensures Decode("a{" + k + v + "}" + suffix) == Decoded(Dict(key, value), suffix)
  {
    DictText(k, v, suffix);
    assert (['}'] + suffix)[1..] == suffix;
    var s := "a{" + k + v + "}" + suffix;
    assert s != "" && Decode(s[2..]) == Decoded(key, v + (['}'] + suffix));
  }

  lemma DictText(k: string, v: string, suffix: string)
    ensures var s := "a{" + k + v + "}" + suffix;
            |s| >= 2 && s[0] == 'a' && s[1] == '{' && s[2..] == k + (v + (['}'] + suffix))
  {
  }

  lemma DecodeStruct(all: string, items: seq<Shape>, suffix: string)
    requires DecodeAll(all + (")" + suffix)) == DecodedAll(items, suffix)
    ensures Decode("(" + all + ")" + suffix) == Decoded(Struct(items), suffix)
  {
    var s := "(" + all + ")" + suffix;
    assert s[0] == '(' && s[1..] == all + (")" + suffix);
  }

  lemma DecodeArray(t: string, item: Shape, suffix: string)
    requires t != "" && t[0] != '{' && Decode(t + suffix) == Decoded(item, suffix)
    ensures Decode("a" + t + suffix) == Decoded(Array(item), suffix)
  {
    ArrayText(t, suffix);
    ArrayFirst("a" + t + suffix, item, suffix);
  }

  lemma ArrayText(t: string, suffix: string)
    requires t != ""
    ensures var s := "a" + t + suffix; |s| > 1 && s[0] == 'a' && s[1] == t[0] && s[1..] == t + suffix
  {
  }

  lemma ArrayFirst(s: string, item: Shape, suffix: string)
    requires |s| > 1 && s[0] == 'a' && s[1] != '{' && Decode(s[1..]) == Decoded(item, suffix)
    ensures Decode(s) == Decoded(Array(item), suffix)
  {
  }

  lemma {:induction false} DecodesPrinted(shape: Shape, suffix: string)
    ensures Decode(Print(shape) + suffix) == Decoded(shape, suffix)
    decreases shape
  {
    match shape
    case Dict(key, value) =>
      DecodesPrinted(key, Print(value) + (['}'] + suffix));
      DecodesPrinted(value, ['}'] + suffix);
      hide Decode;
      DecodeDict(Print(key), Print(value), key, value, suffix);
    case Struct(items) =>
      DecodesAllPrinted(items, suffix);
      hide Decode, DecodeAll;
      DecodeStruct(PrintAll(items), items, suffix);
    case Array(item) =>
      DecodesPrinted(item, suffix);
      PrintStarts(item);
      hide Decode;
      DecodeArray(Print(item), item, suffix);
    case _ =>
      assert (Print(shape) + suffix)[1..] == suffix;
  }

  lemma {:induction false} DecodesAllPrinted(items: seq<Shape>, suffix: string)
    ensures DecodeAll(PrintAll(items) + (")" + suffix)) == DecodedAll(items, suffix)
    decreases items
  {
    var s := PrintAll(items) + (")" + suffix);
    if items == [] {
      assert s[1..] == suffix;
    } else {
      PrintStarts(items[0]);
      assert s == Print(items[0]) + (PrintAll(items[1..]) + (")" + suffix));
      DecodesPrinted(items[0], PrintAll(items[1..]) + (")" + suffix));
      DecodesAllPrinted(items[1..], suffix);
      assert items == [items[0]] + items[1..];
    }
  }

  /** Conversely, whatever is decoded is what stands there. */
  lemma JoinDict(s: string, k: string, v: string, rest: string, rest': string)
    requires |s| >= 2 && s[0] == 'a' && s[1] == '{' && s[2..] == k + rest
    requires rest == v + rest' && rest' != "" && rest'[0] == '}'
    ensures s == "a{" + k + v + "}" + rest'[1..]
  {
    assert s == "a{" + s[2..] && rest' == "}" + rest'[1..];
  }

  lemma JoinStruct(s: string, all: string, rest: string)
    requires s != "" && s[0] == '(' && s[1..] == all + ")" + rest
    ensures s == "(" + all + ")" + rest
  {
    assert s == "(" + s[1..];
  }

  lemma {:induction false} PrintsDecoded(s: string)
    requires Decode(s).Decoded?
    ensures s == Print(Decode(s).shape) + Decode(s).rest
    decreases |s|, 0
  {
    if s[0] == '(' {
      PrintsAllDecoded(s[1..]);
      var items := DecodeAll(s[1..]);
      JoinStruct(s, PrintAll(items.shapes), items.rest);
      hide PrintAll, DecodeAll;
    } else if s[0] == 'a' && s[1] == '{' {
      var key := Decode(s[2..]);
      var value := Decode(key.rest);
      assert Decode(s) == Decoded(Dict(key.shape, value.shape), value.rest[1..]);
      hide Decode;
      PrintsDecoded(s[2..]);
      PrintsDecoded(key.rest);
      JoinDict(s, Print(key.shape), Print(value.shape), key.rest, value.rest);
    } else if s[0] == 'a' {
      PrintsDecoded(s[1..]);
      assert s == "a" + s[1..];
    } else {
      assert s == [s[0]] + s[1..];
    }
  }

  lemma {:induction false} PrintsAllDecoded(s: string)
    requires DecodeAll(s).DecodedAll?
    ensures s == PrintAll(DecodeAll(s).shapes) + ")" + DecodeAll(s).rest
    decreases |s|, 1
  {
    if s[0] == ')' {
      assert s == ")" + s[1..];
    } else {
      PrintsDecoded(s);
      PrintsAllDecoded(Decode(s).rest);
      var shapes := DecodeAll(s).shapes;
      assert shapes[1..] == DecodeAll(Decode(s).rest).shapes;
    }
  }

  // ---------------------------------------------------------------- theorems

  /** The letters of the D-Bus types. */
  lemma Letters(members: seq<Annotation>)
    ensures Signature(Int) == Some("i") && Signature(Float) == Some("d") && Signature(Bool) == Some("b")
    ensures Signature(Str) == Some("s") && Signature(Union(members)) == Some("v") && Signature(Other).None?
  {
  }

  /** And the brackets of those that hold others. */
  lemma Brackets(key: Annotation, value: Annotation)
    requires Signature(key).Some? && Signature(value).Some?
    ensures Signature(Mapping(key, value)) == Some("a{" + Signature(key).value + Signature(value).value + "}")
    ensures Signature(Sequence(key)) == Some("a" + Signature(key).value)
    ensures Signature(Tuple([])) == Some("()")
    ensures Signature(Tuple([key, value])) == Some("(" + (Signature(key).value + Signature(value).value) + ")")
  {
    SignatureOfPair(key, value);
    assert "(" + "" + ")" == "()";
  }

  lemma SignatureOfPair(key: Annotation, value: Annotation)
    requires Signature(key).Some? && Signature(value).Some?
    ensures SignatureAll([key, value]) == Some(Signature(key).value + Signature(value).value)
  {
    var v := Signature(value).value;
    assert [value][1..] == [] && SignatureAll([]) == Some("") && v + "" == v;
    hide Signature;
    assert SignatureAll([value]) == Some(v);
    assert [key, value][1..] == [value];
  }

  /** Followed by anything, a signature is decoded to the shape of its annotation, and nothing more is read. */
  lemma SignatureIsDecodable(t: Annotation, suffix: string)
    requires Supported(t)
    ensures Signature(t).Some? && Decode(Signature(t).value + suffix) == Decoded(ShapeOf(t), suffix)
  {
    SignaturePrintsShape(t);
    DecodesPrinted(ShapeOf(t), suffix);
  }

  /** No signature is the beginning of another, and equal ones mean the same. */
  lemma SignaturesArePrefixFree(t: Annotation, u: Annotation)
    requires Supported(t) && Supported(u)
    ensures Signature(t).Some? && Signature(u).Some?
    ensures Signature(t).value <= Signature(u).value ==> ShapeOf(t) == ShapeOf(u) && Signature(t) == Signature(u)
  {
    hide Signature, Decode;
    SignatureIsDecodable(u, "");
    SignaturePrintsShape(t);
    var a, b := Signature(t).value, Signature(u).value;
    if a <= b {
      SignatureIsDecodable(t, b[|a|..]);
      assert a + b[|a|..] == b == b + "";
    }
  }

  /** The signature of a method, its argument signatures in a row, determines each of them. */
  lemma {:induction false} RowsAreDecodable(ts: seq<Annotation>, us: seq<Annotation>)
    requires AllSupported(ts) && AllSupported(us) && SignatureAll(ts) == SignatureAll(us)
    ensures Shapes(ts) == Shapes(us)
  {
    SignatureAllPrints(ts);
    SignatureAllPrints(us);
    DecodesAllPrinted(Shapes(ts), "");
    DecodesAllPrinted(Shapes(us), "");
  }
}
