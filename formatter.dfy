/** Python's format-string machinery as the link generator uses it: the
    tuples string.Formatter.parse yields, and what str.format(n=value)
    produces from them. The parser follows CPython's scanner for format
    strings: literal text runs up to a brace, "{{" and "}}" are escaped
    braces, a field runs to its matching "}", and the scanner stops at the
    first malformed construct, after the tuples before it were yielded. */
module Formatter {
  import opened Wrappers
  import opened Text

  /** A replacement field: its name (the text before ':' or '!'), its
      conversion character, if any, and its format spec (possibly empty). */
  datatype Field = Field(name: string, conversion: Option<char>, spec: string)

  /** One tuple of Formatter.parse: a run of literal text, then the field
      that follows it, if any. */
  datatype Item = Item(literal: string, field: Option<Field>)

  /** The ValueErrors the scanner raises. */
  datatype SyntaxError =
    | SingleCloseBrace        // a '}' that is neither escaped nor closes a field
    | SingleOpenBrace         // a '{' at the very end
    | OpenBraceInFieldName    // a '{' inside a field name
    | MissingCloseBrace       // a field name that runs to the end
    | EndInConversion         // a '!' at the very end
    | ColonAfterConversion    // a conversion not followed by ':' or '}'
    | UnmatchedBraceInSpec    // a format spec whose braces never balance

  /** What iterating over Formatter.parse(s) gives: the tuples yielded, and
      the error raised after them, if any. */
  datatype Parsed = Parsed(items: seq<Item>, error: Option<SyntaxError>)

  /** The first index at or after i that holds a brace, or |s|. */
  function BraceIndex(s: string, i: nat): (k: nat)
    requires i <= |s|
    ensures i <= k <= |s|
    ensures k < |s| ==> s[k] == '{' || s[k] == '}'
    ensures forall j :: i <= j < k ==> s[j] != '{' && s[j] != '}'
    decreases |s| - i
  {
    if i == |s| || s[i] == '{' || s[i] == '}' then i else BraceIndex(s, i + 1)
  }

  /** The first index at or after i that holds ']', or |t|. */
  function BracketEnd(t: string, i: nat): (j: nat)
    requires i <= |t|
    ensures i <= j <= |t| && (j < |t| ==> t[j] == ']')
    decreases |t| - i
  {
    if i == |t| || t[i] == ']' then i else BracketEnd(t, i + 1)
  }

  predicate IsNameEnd(c: char) { c == '}' || c == ':' || c == '!' }

  /** The index of the character that ends a field name: '}', ':' or '!'
      outside square brackets. */
  function NameEnd(t: string, i: nat): (r: Result<nat, SyntaxError>)
    requires i <= |t|
    ensures r.Success? ==> i <= r.value < |t| && IsNameEnd(t[r.value])
    decreases |t| - i
  {
    if i == |t| then Failure(MissingCloseBrace)
    else if t[i] == '{' then Failure(OpenBraceInFieldName)
    else if t[i] == '[' then NameEnd(t, BracketEnd(t, i + 1))
    else if IsNameEnd(t[i]) then Success(i)
    else NameEnd(t, i + 1)
  }

  /** The index of the '}' that closes a format spec, `open` braces being
      open at index i. */
  function SpecEnd(t: string, i: nat, open: nat): (r: Result<nat, SyntaxError>)
    requires i <= |t| && open >= 1
    ensures r.Success? ==> i <= r.value < |t| && t[r.value] == '}'
    decreases |t| - i
  {
    if i == |t| then Failure(UnmatchedBraceInSpec)
    else if t[i] == '{' then SpecEnd(t, i + 1, open + 1)
    else if t[i] == '}' then (if open == 1 then Success(i) else SpecEnd(t, i + 1, open - 1))
    else SpecEnd(t, i + 1, open)
  }

  /** A NUL conversion character counts as no conversion. */
  function ConversionOf(c: char): Option<char> { if c == '\0' then None else Some(c) }

  /** The field whose spec starts at index j of t, and the text after it. */
  function SpecField(t: string, name: string, conversion: Option<char>, j: nat)
    : (r: Result<(Field, string), SyntaxError>)
    requires j <= |t|
    ensures r.Success? ==> |r.value.1| < |t|
  {
    match SpecEnd(t, j, 1)
    case Failure(e) => Failure(e)
    case Success(k) => Success((Field(name, conversion, t[j..k]), t[k + 1..]))
  }

  /** The field that starts right after an opening brace, and the text after
      its closing brace. */
  function ParseField(t: string): (r: Result<(Field, string), SyntaxError>)
    ensures r.Success? ==> |r.value.1| < |t|
  {
    match NameEnd(t, 0)
    case Failure(e) => Failure(e)
    case Success(i) =>
      var name := t[..i];
      if t[i] == '}' then Success((Field(name, None, ""), t[i + 1..]))
      else if t[i] == ':' then SpecField(t, name, None, i + 1)
      else if i + 1 == |t| then Failure(EndInConversion)
      else
        var conversion := ConversionOf(t[i + 1]);
        if i + 2 == |t| then SpecField(t, name, conversion, i + 2)
        else if t[i + 2] == '}' then Success((Field(name, conversion, ""), t[i + 3..]))
        else if t[i + 2] == ':' then SpecField(t, name, conversion, i + 3)
        else Failure(ColonAfterConversion)
  }

  /** The next tuple of a non-empty format string, and the text after it. */
  function NextItem(s: string): (r: Result<(Item, string), SyntaxError>)
    requires s != []
    ensures r.Success? ==> |r.value.1| < |s|
  {
    var k := BraceIndex(s, 0);
    if k == |s| then Success((Item(s, None), []))
    else if s[k] == '}' then
      if k + 1 < |s| && s[k + 1] == '}' then Success((Item(s[..k + 1], None), s[k + 2..]))
      else Failure(SingleCloseBrace)
    else if k + 1 == |s| then Failure(SingleOpenBrace)
    else if s[k + 1] == '{' then Success((Item(s[..k + 1], None), s[k + 2..]))
    else
      match ParseField(s[k + 1..])
      case Failure(e) => Failure(e)
      case Success((f, rest)) => Success((Item(s[..k], Some(f)), rest))
  }

  /** Formatter.parse(s), run to the end or to the first error. */
  function Parse(s: string): (p: Parsed)
    decreases |s|
  {
    if s == [] then Parsed([], None)
    else
      match NextItem(s)
      case Failure(e) => Parsed([], Some(e))
      case Success((item, rest)) =>
        var p := Parse(rest);
        Parsed([item] + p.items, p.error)
  }

  /** Text without braces is one literal tuple. */
  lemma ParseLiteral(s: string)
    requires s != [] && forall i :: 0 <= i < |s| ==> s[i] != '{' && s[i] != '}'
    ensures Parse(s) == Parsed([Item(s, None)], None)
  {
    assert BraceIndex(s, 0) == |s|;
  }

  predicate BraceFree(s: string)
  {
    forall i :: 0 <= i < |s| ==> s[i] != '{' && s[i] != '}'
  }

  lemma BraceFreeConcat(a: string, b: string)
    requires BraceFree(a) && BraceFree(b)
    ensures BraceFree(a + b)
  {
    forall i | 0 <= i < |a + b|
      ensures (a + b)[i] != '{' && (a + b)[i] != '}'
    {
      if i >= |a| { assert (a + b)[i] == b[i - |a|]; }
    }
  }

  /** A character that may stand in a field name without ending it or
      opening a bracket. */
  predicate IsPlainNameChar(c: char) { c != '{' && c != '[' && !IsNameEnd(c) }

  lemma {:induction false} NameEndPlain(t: string, k: nat, i: nat)
    requires i <= k < |t| && IsNameEnd(t[k])
    requires forall j :: i <= j < k ==> IsPlainNameChar(t[j])
    ensures NameEnd(t, i) == Success(k)
    decreases k - i
  {
    if i < k {
      NameEndPlain(t, k, i + 1);
    }
  }

  lemma {:induction false} SpecEndFlat(t: string, k: nat, i: nat, open: nat)
    requires i <= k < |t| && t[k] == '}' && open >= 1
    requires forall j :: i <= j < k ==> t[j] != '{' && t[j] != '}'
    ensures SpecEnd(t, i, open) == if open == 1 then Success(k) else SpecEnd(t, k + 1, open - 1)
    decreases k - i
  {
    if i < k {
      SpecEndFlat(t, k, i + 1, open);
    }
  }

  /** A literal followed by the field {name}: one tuple, then the rest. */
  lemma ParseNamedField(s: string, lit: string, name: string, rest: string)
    requires s == lit + "{" + name + "}" + rest
    requires BraceFree(lit)
    requires forall j :: 0 <= j < |name| ==> IsPlainNameChar(name[j])
    ensures Parse(s) == Parsed([Item(lit, Some(Field(name, None, "")))] + Parse(rest).items, Parse(rest).error)
  {
    var t := name + "}" + rest;
    assert s[|lit|] == '{' && s[|lit| + 1..] == t && s[..|lit|] == lit;
    assert s[|lit| + 1] != '{' by {
      if name != [] { assert s[|lit| + 1] == name[0]; } else { assert s[|lit| + 1] == '}'; }
    }
    assert ParseField(t) == Success((Field(name, None, ""), rest)) by {
      NameEndPlain(t, |name|, 0);
      assert t[..|name|] == name && t[|name| + 1..] == rest;
    }
    ParseFieldStep(s, lit, Field(name, None, ""), rest);
  }

  /** A literal followed by the field {name:spec} with a brace-free spec. */
  lemma ParseSpecField(s: string, lit: string, name: string, spec: string, rest: string)
    requires s == lit + "{" + name + ":" + spec + "}" + rest
    requires BraceFree(lit) && BraceFree(spec)
    requires forall j :: 0 <= j < |name| ==> IsPlainNameChar(name[j])
    ensures Parse(s) == Parsed([Item(lit, Some(Field(name, None, spec)))] + Parse(rest).items, Parse(rest).error)
  {
    var t := name + ":" + spec + "}" + rest;
    assert s[|lit|] == '{' && s[|lit| + 1..] == t && s[..|lit|] == lit;
    assert s[|lit| + 1] != '{' by {
      if name != [] { assert s[|lit| + 1] == name[0]; } else { assert s[|lit| + 1] == ':'; }
    }
    SpecFieldScan(t, name, spec, rest);
    ParseFieldStep(s, lit, Field(name, None, spec), rest);
  }

  lemma SpecFieldScan(t: string, name: string, spec: string, rest: string)
    requires t == name + ":" + spec + "}" + rest
    requires BraceFree(spec)
    requires forall j :: 0 <= j < |name| ==> IsPlainNameChar(name[j])
    ensures ParseField(t) == Success((Field(name, None, spec), rest))
  {
    NameEndPlain(t, |name|, 0);
    var k := |name| + 1 + |spec|;
    SpecEndFlat(t, k, |name| + 1, 1);
    assert t[..|name|] == name && t[|name| + 1..k] == spec && t[k + 1..] == rest;
  }

  /** A field {name:{inner}} whose spec is itself one field: the scanner
      counts the nested braces and hands the whole "{inner}" over as the
      spec, uninspected. */
  lemma ParseNestedSpecField(s: string, name: string, inner: string)
    requires s == "{" + name + ":{" + inner + "}}"
    requires BraceFree(inner)
    requires forall j :: 0 <= j < |name| ==> IsPlainNameChar(name[j])
    ensures Parse(s) == Parsed([Item("", Some(Field(name, None, "{" + inner + "}")))], None)
  {
    var t := name + ":{" + inner + "}}";
    OpenedField(s, t, name);
    NestedSpecFieldScan(t, name, inner);
    ParseFieldStep(s, "", Field(name, None, "{" + inner + "}"), []);
  }

  /** "{" followed by a field whose name holds no brace. */
  lemma OpenedField(s: string, t: string, name: string)
    requires s == "{" + t && |t| > |name|
    requires t[..|name|] == name && t[|name|] == ':'
    requires forall j :: 0 <= j < |name| ==> IsPlainNameChar(name[j])
    ensures 1 < |s| && s[..0] == "" && s[0] == '{' && s[1] != '{' && s[1..] == t
  {
    assert s[1..] == t;
    if name != [] { assert t[0] == t[..|name|][0]; }
  }

  /** One step of the scanner: a literal, then a field that ParseField
      reads off the text after its opening brace. */
  lemma ParseFieldStep(s: string, lit: string, f: Field, rest: string)
    requires |lit| + 1 < |s| && s[..|lit|] == lit && BraceFree(lit)
    requires s[|lit|] == '{' && s[|lit| + 1] != '{'
    requires ParseField(s[|lit| + 1..]) == Success((f, rest))
    ensures Parse(s) == Parsed([Item(lit, Some(f))] + Parse(rest).items, Parse(rest).error)
  {
    assert BraceIndex(s, 0) == |lit| by {
      assert forall j :: 0 <= j < |lit| ==> s[j] == lit[j];
    }
    assert NextItem(s) == Success((Item(lit, Some(f)), rest));
  }

  lemma NestedSpecFieldScan(t: string, name: string, inner: string)
    requires t == name + ":{" + inner + "}}"
    requires BraceFree(inner)
    requires forall j :: 0 <= j < |name| ==> IsPlainNameChar(name[j])
    ensures ParseField(t) == Success((Field(name, None, "{" + inner + "}"), []))
  {
    NameEndPlain(t, |name|, 0);
    var k := |name| + 2 + |inner|;
    assert t[|name| + 1] == '{';
    assert SpecEnd(t, |name| + 1, 1) == SpecEnd(t, |name| + 2, 2);
    SpecEndFlat(t, k, |name| + 2, 2);
    assert t[k + 1] == '}';
    assert SpecEnd(t, k + 1, 1) == Success(k + 1);
    assert t[..|name|] == name && t[|name| + 1..k + 1] == "{" + inner + "}" && t[k + 2..] == [];
  }

  // ---------------------------------------------------------------------
  // str.format(n=value)

  /** The value bound to the keyword n: the integer itself, or a string the
      caller formatted already. */
  datatype Value = Int(i: int) | Str(s: string)

  /** What str.format raises, and two outcomes it computes that this model
      does not. */
  datatype FormatError =
    | MissingPositional        // IndexError: a positional field, and no positional argument
    | MissingKeyword(key: string) // KeyError: a keyword other than n
    | AttributeAccess(name: string) // str.format would evaluate an attribute or index of n (not modelled)
    | UnknownConversion(c: char)   // ValueError: a conversion other than s, r, a
    | RecursionExceeded        // ValueError: a spec nested two levels deep
    | SpecSyntax(e: SyntaxError)  // ValueError: a nested spec that does not scan
    | InvalidSpec(spec: string) // ValueError: the 'd' presentation type applied to a str
    | UnsupportedSpec(spec: string) // a spec outside [0][width][d] (not modelled)

  /** The part of a field name before the first '.' or '['. */
  function FieldHead(name: string): (h: string)
    ensures |h| <= |name| && h == name[..|h|]
    ensures forall i :: 0 <= i < |h| ==> h[i] != '.' && h[i] != '['
    ensures |h| < |name| ==> name[|h|] == '.' || name[|h|] == '['
  {
    if name == [] || name[0] == '.' || name[0] == '[' then []
    else [name[0]] + FieldHead(name[1..])
  }

  /** The object a field name denotes when only the keyword n is passed. */
  function Lookup(name: string, v: Value): (r: Result<Value, FormatError>)
    ensures r.Success? <==> name == "n"
    ensures r.Failure? && r.error.AttributeAccess? ==> FieldHead(name) != name
  {
    var head := FieldHead(name);
    if head == "n" then
      if head == name then Success(v) else Failure(AttributeAccess(name))
    else if head == "" || AllDigits(head) then Failure(MissingPositional)
    else Failure(MissingKeyword(head))
  }

  function ToStr(v: Value): string
  {
    match v
    case Int(i) => IntToString(i)
    case Str(s) => s
  }

  /** repr(v). For a str this is the text in single quotes, which is exact
      for the numerals this model ever passes. */
  function Repr(v: Value): string
  {
    match v
    case Int(i) => IntToString(i)
    case Str(s) => "'" + s + "'"
  }

  /** The !s, !r and !a conversions (ascii() and repr() agree on ASCII). */
  function Convert(v: Value, conversion: Option<char>): (r: Result<Value, FormatError>)
    ensures r.Failure? ==> conversion.Some? && r.error == UnknownConversion(conversion.value)
  {
    match conversion
    case None => Success(v)
    case Some(c) =>
      if c == 's' then Success(Str(ToStr(v)))
      else if c == 'r' || c == 'a' then Success(Str(Repr(v)))
      else Failure(UnknownConversion(c))
  }

  /** An integer format spec of the form [0][width][d]. */
  datatype IntSpec = IntSpec(zeroFill: bool, width: nat)

  function ParseIntSpec(spec: string): Option<IntSpec>
  {
    var body := if |spec| > 0 && spec[|spec| - 1] == 'd' then spec[..|spec| - 1] else spec;
    var zeroFill := |body| > 0 && body[0] == '0';
    var digits := if zeroFill then body[1..] else body;
    if AllDigits(digits) then Some(IntSpec(zeroFill, DigitsValue(digits))) else None
  }

  /** format(v, spec). */
  function ApplySpec(v: Value, spec: string): (r: Result<string, FormatError>)
    ensures spec == [] ==> r.Success?
    ensures r.Failure? ==> r.error.InvalidSpec? || r.error.UnsupportedSpec?
  {
    if spec == [] then Success(ToStr(v))
    else
      match v
      case Int(i) =>
        (match ParseIntSpec(spec)
         case Some(p) => Success(FormatInt(i, p.zeroFill, p.width))
         case None => Failure(UnsupportedSpec(spec)))
      case Str(_) =>
        if spec[|spec| - 1] == 'd' then Failure(InvalidSpec(spec)) else Failure(UnsupportedSpec(spec))
  }

  /** A spec holding a '{' has replacement fields of its own. */
  predicate NeedsExpanding(spec: string) { IndexOf(spec, '{') >= 0 }

  /** One tuple rendered: its literal, then its field looked up, converted,
      its spec expanded (one level of nesting is allowed: `depth` starts at
      2 and a nested spec is rendered at depth - 1) and applied. */
  function RenderItem(item: Item, v: Value, depth: nat): Result<string, FormatError>
    decreases depth, 0
  {
    match item.field
    case None => Success(item.literal)
    case Some(f) =>
      match Lookup(f.name, v)
      case Failure(e) => Failure(e)
      case Success(obj) =>
        match Convert(obj, f.conversion)
        case Failure(e) => Failure(e)
        case Success(converted) =>
          if !NeedsExpanding(f.spec) then
            match ApplySpec(converted, f.spec)
            case Failure(e) => Failure(e)
            case Success(s) => Success(item.literal + s)
          else if depth <= 1 then Failure(RecursionExceeded)
          else
            var nested := Parse(f.spec);
            match RenderItems(nested.items, v, depth - 1)
            case Failure(e) => Failure(e)
            case Success(spec) =>
              if nested.error.Some? then Failure(SpecSyntax(nested.error.value))
              else
                match ApplySpec(converted, spec)
                case Failure(e) => Failure(e)
                case Success(s) => Success(item.literal + s)
  }

  /** The tuples rendered in order; the first error ends the rendering. */
  function RenderItems(items: seq<Item>, v: Value, depth: nat): Result<string, FormatError>
    decreases depth, |items|
  {
    if items == [] then Success([])
    else
      match RenderItem(items[0], v, depth)
      case Failure(e) => Failure(e)
      case Success(s) =>
        match RenderItems(items[1..], v, depth)
        case Failure(e) => Failure(e)
        case Success(t) => Success(s + t)
  }

  /** "template.format(n=v)" for a template that scans without error. */
  function Render(items: seq<Item>, v: Value): Result<string, FormatError>
  {
    RenderItems(items, v, 2)
  }

  // ---------------------------------------------------------------------
  // What rendering means for a plain template

  /** A tuple whose field, if any, is exactly {n}. */
  predicate IsPlain(item: Item)
  {
    item.field.Some? ==> item.field.value == Field("n", None, "")
  }

  /** The template's text with every field replaced by s. */
  function Substitute(items: seq<Item>, s: string): string
  {
    if items == [] then []
    else items[0].literal + (if items[0].field.Some? then s else []) + Substitute(items[1..], s)
  }

  /** A template whose fields are all {n} renders to its literal text with
      str(value) in place of every field. */
  lemma {:induction false} RenderPlain(items: seq<Item>, v: Value, depth: nat)
    requires forall i :: 0 <= i < |items| ==> IsPlain(items[i])
    ensures RenderItems(items, v, depth) == Success(Substitute(items, ToStr(v)))
  {
    if items != [] {
      RenderPlain(items[1..], v, depth);
      var head := items[0];
      if head.field.Some? {
        assert FieldHead("n") == "n";
        assert Lookup("n", v) == Success(v);
        assert !NeedsExpanding("");
        assert RenderItem(head, v, depth) == Success(head.literal + ToStr(v));
      } else {
        assert RenderItem(head, v, depth) == Success(head.literal);
        assert head.literal + [] == head.literal;
      }
    }
  }
}
