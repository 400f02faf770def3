/** The link generator of gerador_links_advanced_auth.py: the template
    validator, the safe formatter, the URL builder and the generator of
    numbered link records. */
module Links {
  import opened Wrappers
  import opened Text
  import opened Formatter

  /** The exceptions the generator raises. */
  datatype Error =
    | UnsafeTemplate(field: string)       // UnsafeTemplateError, naming the field
    | TemplateSyntax(syntax: SyntaxError) // ValueError from Formatter.parse
    | SpecFormatting                      // ValueError: formatting a template with a spec failed
    | Formatting(cause: FormatError)      // what str.format raised for a template without specs
    | StartAfterEnd                       // ValueError: start > end
    | NonPositiveStep                     // ValueError: step <= 0
    | RangeTooLarge(size: int, max: int)  // ValueError: more entries than the configured maximum
    | NotModelled                         // a formatting outcome this model does not compute

  // ---------------------------------------------------------------------
  // The template validator

  /** The field names both callers allow: the keyword n and the empty name. */
  const DefaultAllowed: set<string> := {"n", ""}

  /** `allowed_fields or {"n", ""}`: a missing or empty set means the default. */
  function AllowedSet(allowedFields: Option<set<string>>): set<string>
  {
    match allowedFields
    case None => DefaultAllowed
    case Some(names) => if names == {} then DefaultAllowed else names
  }

  /** A field name passes when it is allowed and holds none of '.', '[' and
      ']', the characters through which str.format reaches attributes and
      items. */
  predicate NameAllowed(name: string, allowed: set<string>)
  {
    name in allowed && forall i :: 0 <= i < |name| ==> name[i] != '.' && name[i] != '[' && name[i] != ']'
  }

  /** With the default set the character test adds nothing: n and the empty
      name hold none of the three characters. */
  lemma DefaultNameAllowed(name: string)
    ensures NameAllowed(name, DefaultAllowed) <==> name == "n" || name == ""
  {
  }

  /** The name of the first field among `items` whose name does not pass. */
  function FirstDisallowed(items: seq<Item>, allowed: set<string>): Option<string>
  {
    if items == [] then None
    else if items[0].field.Some? && !NameAllowed(items[0].field.value.name, allowed) then
      Some(items[0].field.value.name)
    else FirstDisallowed(items[1..], allowed)
  }

  /** The validator as the source writes it: the names of the fields that
      Formatter.parse yields are checked in order, then the error the scan
      ended with, if any. The fields inside a format spec are never looked
      at. */
  function AsWrittenRejection(p: Parsed, allowed: set<string>): Option<Error>
  {
    match FirstDisallowed(p.items, allowed)
    case Some(name) => Some(UnsafeTemplate(name))
    case None => if p.error.Some? then Some(TemplateSyntax(p.error.value)) else None
  }

  /** The fields str.format evaluates while it expands a field's spec. */
  function NestedItems(f: Field): seq<Item>
  {
    if NeedsExpanding(f.spec) then Parse(f.spec).items else []
  }

  /** The first name a field brings into play that does not pass: its own,
      then those of the fields nested in its spec. */
  function FieldRejection(f: Field, allowed: set<string>): Option<string>
  {
    if !NameAllowed(f.name, allowed) then Some(f.name) else FirstDisallowed(NestedItems(f), allowed)
  }

  function ItemsRejection(items: seq<Item>, allowed: set<string>): Option<string>
  {
    if items == [] then None
    else
      match (if items[0].field.Some? then FieldRejection(items[0].field.value, allowed) else None)
      case Some(name) => Some(name)
      case None => ItemsRejection(items[1..], allowed)
  }

  /** The corrected validator: as written, but the names of the fields
      nested in a format spec are checked too. */
  function Rejection(p: Parsed, allowed: set<string>): Option<Error>
  {
    match ItemsRejection(p.items, allowed)
    case Some(name) => Some(UnsafeTemplate(name))
    case None => if p.error.Some? then Some(TemplateSyntax(p.error.value)) else None
  }

  /** Every name a field brings into play passes. */
  predicate FieldAccepted(f: Field, allowed: set<string>)
  {
    NameAllowed(f.name, allowed)
    && forall j :: 0 <= j < |NestedItems(f)| && NestedItems(f)[j].field.Some? ==>
                   NameAllowed(NestedItems(f)[j].field.value.name, allowed)
  }

  /** A template the validator must accept: it scans without error and every
      name that str.format would evaluate passes. */
  predicate TemplateAccepted(p: Parsed, allowed: set<string>)
  {
    p.error.None?
    && forall i :: 0 <= i < |p.items| && p.items[i].field.Some? ==> FieldAccepted(p.items[i].field.value, allowed)
  }

  lemma {:induction false} FirstDisallowedSound(items: seq<Item>, allowed: set<string>)
    ensures FirstDisallowed(items, allowed).None? <==>
            forall j :: 0 <= j < |items| && items[j].field.Some? ==> NameAllowed(items[j].field.value.name, allowed)
    ensures FirstDisallowed(items, allowed).Some? ==> !NameAllowed(FirstDisallowed(items, allowed).value, allowed)
  {
    if items != [] {
      FirstDisallowedSound(items[1..], allowed);
      assert forall j :: 1 <= j < |items| ==> items[j] == items[1..][j - 1];
    }
  }

  lemma {:induction false} ItemsRejectionSound(items: seq<Item>, allowed: set<string>)
    ensures ItemsRejection(items, allowed).None? <==>
            forall i :: 0 <= i < |items| && items[i].field.Some? ==> FieldAccepted(items[i].field.value, allowed)
    ensures ItemsRejection(items, allowed).Some? ==> !NameAllowed(ItemsRejection(items, allowed).value, allowed)
  {
    if items != [] {
      ItemsRejectionSound(items[1..], allowed);
      assert forall j :: 1 <= j < |items| ==> items[j] == items[1..][j - 1];
      if items[0].field.Some? {
        FirstDisallowedSound(NestedItems(items[0].field.value), allowed);
      }
    }
  }

  /** The validator raises exactly when the template fails to scan or some
      name str.format would evaluate does not pass; an UnsafeTemplateError
      always names a field that does not pass. */
  lemma RejectionIff(p: Parsed, allowed: set<string>)
    ensures Rejection(p, allowed).None? <==> TemplateAccepted(p, allowed)
    ensures Rejection(p, allowed).Some? && Rejection(p, allowed).value.UnsafeTemplate? ==>
            !NameAllowed(Rejection(p, allowed).value.field, allowed)
    ensures Rejection(p, allowed).Some? && Rejection(p, allowed).value.TemplateSyntax? ==>
            p.error == Some(Rejection(p, allowed).value.syntax)
  {
    ItemsRejectionSound(p.items, allowed);
  }

  /** A template without braces is always accepted, whatever the allowed set. */
  lemma LiteralTemplateAccepted(template: string, allowed: set<string>)
    requires BraceFree(template)
    ensures Rejection(Parse(template), allowed) == None
  {
    if template != [] {
      ParseLiteral(template);
      var items := [Item(template, None)];
      assert items[1..] == [];
      assert ItemsRejection(items, allowed) == ItemsRejection(items[1..], allowed);
    }
  }

  /** The loop of _validate_template_allowed_fields over one list of
      tuples: the name of the first field that does not pass, if any. */
  method CheckFieldNames(items: seq<Item>, allowed: set<string>) returns (r: Option<string>)
    ensures r == FirstDisallowed(items, allowed)
    ensures r.Some? ==> !NameAllowed(r.value, allowed)
  {
    var j := 0;
    while j < |items|
      invariant 0 <= j <= |items|
      invariant FirstDisallowed(items, allowed) == FirstDisallowed(items[j..], allowed)
    {
      assert items[j..][1..] == items[j + 1..];
      if items[j].field.Some? && !NameAllowed(items[j].field.value.name, allowed) {
        return Some(items[j].field.value.name);
      }
      j := j + 1;
    }
    return None;
  }

  /** _validate_template_allowed_fields: walks the fields Formatter.parse
      yields and raises at the first one whose name, or the name of a field
      nested in its spec, does not pass. */
  method ValidateTemplateAllowedFields(template: string, allowedFields: Option<set<string>>)
    returns (r: Outcome<Error>)
    ensures r.Pass? <==> TemplateAccepted(Parse(template), AllowedSet(allowedFields))
    ensures r == match Rejection(Parse(template), AllowedSet(allowedFields))
                 case None => Pass
                 case Some(e) => Fail(e)
  {
    var allowed := AllowedSet(allowedFields);
    var p := Parse(template);
    RejectionIff(p, allowed);
    var i := 0;
    while i < |p.items|
      invariant 0 <= i <= |p.items|
      invariant ItemsRejection(p.items, allowed) == ItemsRejection(p.items[i..], allowed)
    {
      assert p.items[i..][1..] == p.items[i + 1..];
      var item := p.items[i];
      if item.field.Some? {
        var f := item.field.value;
        if !NameAllowed(f.name, allowed) {
          return Fail(UnsafeTemplate(f.name));
        }
        var bad := CheckFieldNames(NestedItems(f), allowed);
        if bad.Some? {
          return Fail(UnsafeTemplate(bad.value));
        }
      }
      i := i + 1;
    }
    if p.error.Some? {
      return Fail(TemplateSyntax(p.error.value));
    }
    return Pass;
  }

  // ---------------------------------------------------------------------
  // safe_format

  /** `template.replace("{}", "{n}")` when "{}" occurs in it. */
  function EmptyFieldsAsN(template: string): string
  {
    if Contains(template, "{}") then Replace(template, "{}", "{n}") else template
  }

  /** Some field carries a non-empty format spec. */
  predicate HasSpec(items: seq<Item>)
  {
    exists i :: 0 <= i < |items| && items[i].field.Some? && items[i].field.value.spec != []
  }

  /** The value safe_format binds to n when no field has a spec: n padded
      with zeros to `pad` columns when pad is positive, str(n) otherwise. */
  function PlainValue(n: int, pad: int): string
  {
    if pad > 0 then FormatInt(n, true, pad) else IntToString(n)
  }

  /** What safe_format(template, n, pad) returns or raises: "{}" becomes
      "{n}", the template is validated, and then a template with a spec is
      formatted with the integer (any failure becoming one ValueError), and a
      template without one with the string PlainValue(n, pad). */
  function Formatted(template: string, n: int, pad: int): Result<string, Error>
  {
    FormatParsed(Parse(EmptyFieldsAsN(template)), n, pad)
  }

  /** Formatted, from the scanned template on. */
  function FormatParsed(p: Parsed, n: int, pad: int): Result<string, Error>
  {
    match Rejection(p, DefaultAllowed)
    case Some(e) => Failure(e)
    case None =>
      if HasSpec(p.items) then
        match Render(p.items, Int(n))
        case Success(s) => Success(s)
        case Failure(e) => Failure(if e.UnsupportedSpec? || e.AttributeAccess? then NotModelled else SpecFormatting)
      else
        match Render(p.items, Str(PlainValue(n, pad)))
        case Success(s) => Success(s)
        case Failure(e) => Failure(Formatting(e))
  }

  /** The has_spec loop of safe_format: walks the tuples and stops at the
      first field with a non-empty spec. */
  method ScanForSpec(items: seq<Item>) returns (hasSpec: bool)
    ensures hasSpec <==> HasSpec(items)
  {
    hasSpec := false;
    var i := 0;
    while i < |items|
      invariant 0 <= i <= |items|
      invariant !hasSpec
      invariant forall j :: 0 <= j < i ==> !(items[j].field.Some? && items[j].field.value.spec != [])
    {
      if items[i].field.Some? && items[i].field.value.spec != [] {
        hasSpec := true;
        return;
      }
      i := i + 1;
    }
  }

  /** safe_format: replaces "{}", validates, looks for a spec, formats. */
  method SafeFormat(template: string, n: int, pad: int) returns (r: Result<string, Error>)
    ensures r == Formatted(template, n, pad)
  {
    var t := template;
    if Contains(t, "{}") {
      t := Replace(t, "{}", "{n}");
    }
    assert t == EmptyFieldsAsN(template);
    var p := Parse(t);
    assert Formatted(template, n, pad) == FormatParsed(p, n, pad);
    assert AllowedSet(Some(DefaultAllowed)) == DefaultAllowed;
    var check := ValidateTemplateAllowedFields(t, Some(DefaultAllowed));
    if check.Fail? {
      return Failure(check.error);
    }
    assert Rejection(p, DefaultAllowed).None?;
    var items := p.items;
    var hasSpec := ScanForSpec(items);
    if hasSpec {
      var out := Render(items, Int(n));
      if out.Failure? {
        return Failure(if out.error.UnsupportedSpec? || out.error.AttributeAccess? then NotModelled else SpecFormatting);
      }
      return Success(out.value);
    }
    var value := if pad > 0 then FormatInt(n, true, pad) else IntToString(n);
    assert value == PlainValue(n, pad);
    var out := Render(items, Str(value));
    if out.Failure? {
      return Failure(Formatting(out.error));
    }
    return Success(out.value);
  }

  /** The pattern "{}" cannot straddle a boundary followed by anything but
      '}', so replacing it distributes over such a concatenation. */
  lemma {:induction false} ReplaceEmptyFieldSplit(a: string, c: string)
    requires c == [] || c[0] != '}'
    ensures Replace(a + c, "{}", "{n}") == Replace(a, "{}", "{n}") + Replace(c, "{}", "{n}")
    decreases |a|
  {
    var s := a + c;
    if a == [] {
      assert s == c;
    } else if c == [] {
      assert s == a;
    } else if |a| == 1 {
      assert s == [a[0]] + c;
      ReplaceSkip(a[0], c, "{}", "{n}");
    } else if a[..2] == "{}" {
      assert s[..2] == a[..2] && s[2..] == a[2..] + c;
      ReplaceEmptyFieldSplit(a[2..], c);
    } else {
      assert s == [a[0]] + (a[1..] + c) && a == [a[0]] + a[1..];
      ReplaceSkip(a[0], a[1..] + c, "{}", "{n}");
      ReplaceSkip(a[0], a[1..], "{}", "{n}");
      ReplaceEmptyFieldSplit(a[1..], c);
    }
  }

  lemma ReplaceEmptyFieldHead(b: string)
    ensures Replace("{}" + b, "{}", "{n}") == "{n}" + Replace(b, "{}", "{n}")
  {
    var s := "{}" + b;
    assert s[..2] == "{}" && s[2..] == b;
  }

  lemma ReplaceFieldNHead(b: string)
    ensures Replace("{n}" + b, "{}", "{n}") == "{n}" + Replace(b, "{}", "{n}")
  {
    assert "{n}" + b == ['{'] + (['n'] + (['}'] + b));
    ReplaceSkip('}', b, "{}", "{n}");
    ReplaceSkip('n', ['}'] + b, "{}", "{n}");
    ReplaceSkip('{', ['n'] + (['}'] + b), "{}", "{n}");
  }

  lemma ContainsInfix(a: string, sub: string, b: string)
    ensures Contains(a + sub + b, sub)
    decreases |a|
  {
    if a == [] {
      assert (a + sub + b)[..|sub|] == sub;
    } else {
      assert (a + sub + b)[1..] == a[1..] + sub + b;
      ContainsInfix(a[1..], sub, b);
    }
  }

  /** safe_format treats "{}" exactly as "{n}": the two spellings give the
      same text or the same error, wherever they stand. */
  lemma FormattedSpellings(a: string, b: string, n: int, pad: int)
    ensures Formatted(a + "{}" + b, n, pad) == Formatted(a + "{n}" + b, n, pad)
  {
    EmptyFieldSpellings(a, b);
  }

  lemma EmptyFieldSpellings(a: string, b: string)
    ensures EmptyFieldsAsN(a + "{}" + b) == EmptyFieldsAsN(a + "{n}" + b)
  {
    var x1 := a + ("{}" + b);
    var x2 := a + ("{n}" + b);
    assert a + "{}" + b == x1;
    assert a + "{n}" + b == x2;
    ReplaceEmptyFieldSplit(a, "{}" + b);
    ReplaceEmptyFieldSplit(a, "{n}" + b);
    ReplaceEmptyFieldHead(b);
    ReplaceFieldNHead(b);
    var r := Replace(a, "{}", "{n}") + ("{n}" + Replace(b, "{}", "{n}"));
    assert Replace(x1, "{}", "{n}") == r;
    assert Replace(x2, "{}", "{n}") == r;
    ContainsInfix(a, "{}", b);
    assert EmptyFieldsAsN(x1) == r;
  }

  /** A template whose fields are all {n} is accepted. */
  lemma {:induction false} PlainAccepted(p: Parsed)
    requires p.error.None? && forall i :: 0 <= i < |p.items| ==> IsPlain(p.items[i])
    ensures TemplateAccepted(p, DefaultAllowed)
  {
    assert !NeedsExpanding("");
    forall i | 0 <= i < |p.items| && p.items[i].field.Some?
      ensures FieldAccepted(p.items[i].field.value, DefaultAllowed)
    {
      assert NestedItems(p.items[i].field.value) == [];
    }
  }

  /** Without a spec the result is the template's text with PlainValue(n, pad)
      in place of every field. */
  lemma FormattedPlain(template: string, n: int, pad: int)
    requires !Contains(template, "{}")
    requires Parse(template).error.None?
    requires forall i :: 0 <= i < |Parse(template).items| ==> IsPlain(Parse(template).items[i])
    ensures Formatted(template, n, pad) == Success(Substitute(Parse(template).items, PlainValue(n, pad)))
  {
    var p := Parse(template);
    PlainAccepted(p);
    RejectionIff(p, DefaultAllowed);
    RenderPlain(p.items, Str(PlainValue(n, pad)), 2);
  }

  /** One field {n:spec} with an integer spec: the spec governs, and pad plays
      no part. */
  lemma FormattedIntSpec(t: string, lit: string, spec: string, rest: string, n: int, pad: int)
    requires t == lit + "{n:" + spec + "}" + rest
    requires BraceFree(lit) && BraceFree(spec) && BraceFree(rest) && spec != []
    requires ParseIntSpec(spec).Some?
    ensures Formatted(t, n, pad) ==
            Success(lit + FormatInt(n, ParseIntSpec(spec).value.zeroFill, ParseIntSpec(spec).value.width) + rest)
  {
    SpecTemplateHasNoEmptyField(t, lit, spec, rest);
    SpecTemplateScan(t, lit, spec, rest);
    FormatIntSpecItems(lit, spec, rest, n, pad);
  }

  /** The tuple Formatter.parse yields for a brace-free text, if any. */
  function LiteralItems(s: string): seq<Item>
  {
    if s == [] then [] else [Item(s, None)]
  }

  lemma SpecTemplateHasNoEmptyField(t: string, lit: string, spec: string, rest: string)
    requires t == lit + "{n:" + spec + "}" + rest
    requires BraceFree(lit) && BraceFree(spec) && BraceFree(rest)
    ensures EmptyFieldsAsN(t) == t
  {
    OneFieldNoEmptyField(lit, "n:" + spec, rest);
    assert lit + "{" + ("n:" + spec) + "}" + rest == t;
  }

  lemma SpecTemplateScan(t: string, lit: string, spec: string, rest: string)
    requires t == lit + "{n:" + spec + "}" + rest
    requires BraceFree(lit) && BraceFree(spec) && BraceFree(rest)
    ensures Parse(t) == Parsed([Item(lit, Some(Field("n", None, spec)))] + LiteralItems(rest), None)
  {
    ParseLiteralItems(rest);
    assert lit + "{" + "n" + ":" + spec + "}" + rest == t;
    ParseSpecField(t, lit, "n", spec, rest);
  }

  lemma ParseLiteralItems(s: string)
    requires BraceFree(s)
    ensures Parse(s) == Parsed(LiteralItems(s), None)
  {
    if s != [] {
      ParseLiteral(s);
    }
  }

  lemma FormatIntSpecItems(lit: string, spec: string, rest: string, n: int, pad: int)
    requires BraceFree(spec) && spec != []
    requires ParseIntSpec(spec).Some?
    ensures FormatParsed(Parsed([Item(lit, Some(Field("n", None, spec)))] + LiteralItems(rest), None), n, pad) ==
            Success(lit + FormatInt(n, ParseIntSpec(spec).value.zeroFill, ParseIntSpec(spec).value.width) + rest)
  {
    var items := [Item(lit, Some(Field("n", None, spec)))] + LiteralItems(rest);
    IntSpecItemsAccepted(lit, spec, rest);
    RenderIntSpecItems(lit, spec, rest, n);
    assert HasSpec(items) by { assert items[0].field.value.spec != []; }
  }

  lemma IntSpecItemsAccepted(lit: string, spec: string, rest: string)
    requires BraceFree(spec)
    ensures Rejection(Parsed([Item(lit, Some(Field("n", None, spec)))] + LiteralItems(rest), None), DefaultAllowed).None?
  {
    var f := Field("n", None, spec);
    var items := [Item(lit, Some(f))] + LiteralItems(rest);
    assert IndexOf(spec, '{') == -1;
    assert NestedItems(f) == [];
    assert TemplateAccepted(Parsed(items, None), DefaultAllowed) by {
      forall i | 0 <= i < |items| && items[i].field.Some?
        ensures FieldAccepted(items[i].field.value, DefaultAllowed)
      {
        assert i == 0;
      }
    }
    RejectionIff(Parsed(items, None), DefaultAllowed);
  }

  lemma RenderIntSpecItems(lit: string, spec: string, rest: string, n: int)
    requires BraceFree(spec) && spec != []
    requires ParseIntSpec(spec).Some?
    ensures Render([Item(lit, Some(Field("n", None, spec)))] + LiteralItems(rest), Int(n)) ==
            Success(lit + FormatInt(n, ParseIntSpec(spec).value.zeroFill, ParseIntSpec(spec).value.width) + rest)
  {
    var items := [Item(lit, Some(Field("n", None, spec)))] + LiteralItems(rest);
    RenderIntSpecItem(lit, spec, n);
    RenderLiteralItems(rest, Int(n));
    assert items[0] == Item(lit, Some(Field("n", None, spec))) && items[1..] == LiteralItems(rest);
  }

  lemma RenderIntSpecItem(lit: string, spec: string, n: int)
    requires BraceFree(spec) && spec != []
    requires ParseIntSpec(spec).Some?
    ensures RenderItem(Item(lit, Some(Field("n", None, spec))), Int(n), 2) ==
            Success(lit + FormatInt(n, ParseIntSpec(spec).value.zeroFill, ParseIntSpec(spec).value.width))
  {
    assert IndexOf(spec, '{') == -1;
    assert FieldHead("n") == "n";
  }

  lemma RenderLiteralItems(rest: string, v: Value)
    ensures RenderItems(LiteralItems(rest), v, 2) == Success(rest)
  {
    if rest != [] {
      assert LiteralItems(rest)[1..] == [];
      assert rest + [] == rest;
    }
  }

  /** One field {n} between brace-free texts becomes PlainValue(n, pad). */
  lemma FormattedOneField(t: string, lit: string, rest: string, n: int, pad: int)
    requires t == lit + "{n}" + rest
    requires BraceFree(lit) && BraceFree(rest)
    ensures Formatted(t, n, pad) == Success(lit + PlainValue(n, pad) + rest)
  {
    OneFieldTemplateScan(t, lit, rest);
    OneFieldItems(lit, rest, PlainValue(n, pad));
    FormattedPlain(t, n, pad);
  }

  /** The tuples of lit + "{n}" + rest: all plain, and substituting v for
      the field gives lit + v + rest. */
  lemma OneFieldItems(lit: string, rest: string, v: string)
    ensures var items := [Item(lit, Some(Field("n", None, "")))] + LiteralItems(rest);
            (forall i :: 0 <= i < |items| ==> IsPlain(items[i]))
            && Substitute(items, v) == lit + v + rest
  {
    var items := [Item(lit, Some(Field("n", None, "")))] + LiteralItems(rest);
    assert items[1..] == LiteralItems(rest);
    assert Substitute(LiteralItems(rest), v) == rest by {
      if rest != [] {
        assert LiteralItems(rest)[1..] == [];
        assert rest + [] + [] == rest;
      }
    }
  }

  lemma OneFieldTemplateScan(t: string, lit: string, rest: string)
    requires t == lit + "{n}" + rest
    requires BraceFree(lit) && BraceFree(rest)
    ensures !Contains(t, "{}")
    ensures Parse(t) == Parsed([Item(lit, Some(Field("n", None, "")))] + LiteralItems(rest), None)
  {
    assert lit + "{" + "n" + "}" + rest == t;
    OneFieldNoEmptyField(lit, "n", rest);
    ParseNamedField(t, lit, "n", rest);
    ParseLiteralItems(rest);
  }

  lemma FiveInThreeColumns()
    ensures FormatInt(5, true, 3) == "005"
  {
    assert NatToString(5) == "5" by { assert DigitChar(5) == '5'; }
    assert IntToString(5) == "5";
    assert Repeat('0', 2) == "00" by {
      assert Repeat('0', 1) == "0";
    }
    assert "" + "00" + "5" == "005";
  }

  lemma TwelveAsText()
    ensures IntToString(12) == "12"
  {
    assert NatToString(1) == "1" by { assert DigitChar(1) == '1'; }
    assert DigitChar(2) == '2';
    assert NatToString(12) == NatToString(1) + [DigitChar(2)];
  }

  lemma SpecExample()
    ensures Formatted("{n:03d}", 5, 0) == Success("005")
  {
    ThreeColumnSpec();
    SpecTemplateSplit(FormatInt(5, true, 3));
    FormattedIntSpec("{n:03d}", "", "03d", "", 5, 0);
    FiveInThreeColumns();
  }

  lemma ThreeColumnSpec()
    ensures ParseIntSpec("03d") == Some(IntSpec(true, 3))
  {
    assert "03d"[..2] == "03" && "03"[1..] == "3";
    assert DigitsValue("3") == 3;
  }

  lemma SpecTemplateSplit(v: string)
    ensures "{n:03d}" == "" + "{n:" + "03d" + "}" + "" && BraceFree("") && BraceFree("03d")
    ensures "" + v + "" == v
  {
  }

  lemma PadExample()
    ensures Formatted("{n}", 5, 3) == Success("005")
  {
    BareTemplateSplit(PlainValue(5, 3));
    FormattedOneField("{n}", "", "", 5, 3);
    FiveInThreeColumns();
  }

  lemma BareTemplateSplit(v: string)
    ensures "{n}" == "" + "{n}" + "" && BraceFree("")
    ensures "" + v + "" == v
  {
  }

  lemma PlainExample()
    ensures Formatted("Cap {n}", 12, 0) == Success("Cap 12")
  {
    CapTemplateSplit();
    FormattedOneField("Cap {n}", "Cap ", "", 12, 0);
  }

  lemma CapTemplateSplit()
    ensures "Cap {n}" == "Cap " + "{n}" + "" && BraceFree("Cap ") && BraceFree("")
    ensures "Cap " + PlainValue(12, 0) + "" == "Cap 12"
  {
    TwelveAsText();
  }

  /** A field with an empty name and a spec, such as "{:03d}", is not
      rewritten (only "{}" is), passes the validator, and then fails for
      want of a positional argument. */
  lemma PositionalSpecFails(t: string, spec: string, n: int, pad: int)
    requires t == "{:" + spec + "}"
    requires BraceFree(spec) && spec != []
    ensures Formatted(t, n, pad) == Failure(SpecFormatting)
  {
    PositionalTemplateScan(t, spec);
    PositionalItemsFail(spec, n, pad);
  }

  lemma PositionalTemplateScan(t: string, spec: string)
    requires t == "{:" + spec + "}"
    requires BraceFree(spec)
    ensures EmptyFieldsAsN(t) == t
    ensures Parse(t) == Parsed([Item("", Some(Field("", None, spec)))], None)
  {
    assert "" + "{" + "" + ":" + spec + "}" + "" == t;
    ParseSpecField(t, "", "", spec, "");
    PositionalNoEmptyField(t, spec);
  }

  lemma PositionalNoEmptyField(t: string, spec: string)
    requires t == "{:" + spec + "}"
    requires BraceFree(spec)
    ensures !Contains(t, "{}")
  {
    var inner := ":" + spec;
    assert BraceFree(inner) by { BraceFreeConcat(":", spec); }
    assert "" + "{" + inner + "}" + "" == t;
    OneFieldNoEmptyField("", inner, "");
  }

  lemma PositionalItemsFail(spec: string, n: int, pad: int)
    requires BraceFree(spec) && spec != []
    ensures FormatParsed(Parsed([Item("", Some(Field("", None, spec)))], None), n, pad) == Failure(SpecFormatting)
  {
    var f := Field("", None, spec);
    var items := [Item("", Some(f))];
    assert IndexOf(spec, '{') == -1;
    assert NestedItems(f) == [];
    assert NameAllowed("", DefaultAllowed);
    assert ItemsRejection(items, DefaultAllowed) == None by {
      assert items[1..] == [];
    }
    assert HasSpec(items) by { assert items[0].field.value.spec != []; }
    assert FieldHead("") == "";
    assert Render(items, Int(n)) == Failure(MissingPositional) by {
      assert RenderItem(items[0], Int(n), 2) == Failure(MissingPositional);
    }
  }

  /** A name that reaches an attribute of n: "n." followed by plain name
      characters, such as "n.real". */
  predicate AttributePath(name: string)
  {
    |name| > 2 && name[0] == 'n' && name[1] == '.'
    && forall j :: 0 <= j < |name| ==> IsPlainNameChar(name[j]) && name[j] != '}'
  }

  /** The validator as written accepts a field whose spec nests a field
      {n.attr}, although str.format evaluates that attribute of n while
      expanding the spec ("{n:{n.real}}" is one such template); the
      corrected validator rejects it. */
  lemma AsWrittenAcceptsNestedAttribute(t: string, path: string, n: int)
    requires t == "{n:{" + path + "}}"
    requires AttributePath(path)
    ensures AsWrittenRejection(Parse(t), DefaultAllowed) == None
    ensures Rejection(Parse(t), DefaultAllowed) == Some(UnsafeTemplate(path))
    ensures Render(Parse(t).items, Int(n)) == Failure(AttributeAccess(path))
  {
    var spec := "{" + path + "}";
    ScanNestedAttribute(t, spec, path);
    NestedAttributeVerdicts(spec, path);
    RenderNestedAttribute(spec, path, n);
  }

  lemma ScanNestedAttribute(t: string, spec: string, path: string)
    requires t == "{n:{" + path + "}}" && spec == "{" + path + "}"
    requires AttributePath(path)
    ensures Parse(t) == Parsed([Item("", Some(Field("n", None, spec)))], None)
  {
    ParseNestedSpecField(t, "n", path);
  }

  lemma ScanAttributeField(spec: string, path: string)
    requires spec == "{" + path + "}"
    requires AttributePath(path)
    ensures NeedsExpanding(spec)
    ensures Parse(spec) == Parsed([Item("", Some(Field(path, None, "")))], None)
  {
    assert IndexOf(spec, '{') == 0;
    assert "" + "{" + path + "}" + "" == spec;
    ParseNamedField(spec, "", path, "");
  }

  /** The as-written validator passes the field {n:{path}}, the corrected one
      names path. */
  lemma NestedAttributeVerdicts(spec: string, path: string)
    requires spec == "{" + path + "}"
    requires AttributePath(path)
    ensures var items := [Item("", Some(Field("n", None, spec)))];
            FirstDisallowed(items, DefaultAllowed) == None
            && ItemsRejection(items, DefaultAllowed) == Some(path)
  {
    ScanAttributeField(spec, path);
    var f := Field("n", None, spec);
    var items := [Item("", Some(f))];
    var nested := [Item("", Some(Field(path, None, "")))];
    assert items[1..] == [];
    assert NestedItems(f) == nested;
    assert !NameAllowed(path, DefaultAllowed) by { assert path[1] == '.'; }
    assert FirstDisallowed(nested, DefaultAllowed) == Some(path);
  }

  lemma RenderNestedAttribute(spec: string, path: string, n: int)
    requires spec == "{" + path + "}"
    requires AttributePath(path)
    ensures RenderItems([Item("", Some(Field("n", None, spec)))], Int(n), 2) == Failure(AttributeAccess(path))
  {
    ScanAttributeField(spec, path);
    var nested := [Item("", Some(Field(path, None, "")))];
    assert FieldHead("n") == "n";
    assert FieldHead(path) == "n" by {
      assert path[1..][0] == '.';
      assert FieldHead(path[1..]) == [];
    }
    assert RenderItem(nested[0], Int(n), 1) == Failure(AttributeAccess(path));
    assert RenderItems(nested, Int(n), 1) == Failure(AttributeAccess(path));
    assert RenderItem(Item("", Some(Field("n", None, spec))), Int(n), 2) == Failure(AttributeAccess(path));
  }

  /** A template whose first field names anything but n or the empty name
      is rejected with that name, whatever follows the field. */
  lemma FirstFieldRejected(t: string, lit: string, name: string, rest: string)
    requires t == lit + "{" + name + "}" + rest
    requires BraceFree(lit) && forall j :: 0 <= j < |name| ==> IsPlainNameChar(name[j])
    requires !NameAllowed(name, DefaultAllowed)
    ensures AsWrittenRejection(Parse(t), DefaultAllowed) == Some(UnsafeTemplate(name))
    ensures Rejection(Parse(t), DefaultAllowed) == Some(UnsafeTemplate(name))
  {
    ParseNamedField(t, lit, name, rest);
    var items := Parse(t).items;
    assert items[0] == Item(lit, Some(Field(name, None, "")));
  }

  /** A text with one brace pair around a non-empty brace-free text does
      not contain "{}". */
  lemma OneFieldNoEmptyField(lit: string, inner: string, rest: string)
    requires BraceFree(lit) && BraceFree(inner) && BraceFree(rest) && inner != []
    ensures !Contains(lit + "{" + inner + "}" + rest, "{}")
  {
    var t := lit + "{" + inner + "}" + rest;
    forall i | 0 <= i < |t| - 1
      ensures !(t[i] == '{' && t[i + 1] == '}')
    {
      if i < |lit| {
        assert t[i] == lit[i];
      } else if i == |lit| {
        assert t[i + 1] == inner[0];
      } else if i <= |lit| + |inner| {
        assert t[i] == inner[i - |lit| - 1];
      } else if i == |lit| + |inner| + 1 {
        assert t[i] == '}';
      } else {
        assert t[i] == rest[i - |lit| - |inner| - 2];
      }
    }
    NoEmptyField(t);
  }

  /** A text in which no '{' is directly followed by '}' does not contain
      "{}". */
  lemma {:induction false} NoEmptyField(s: string)
    requires forall i :: 0 <= i < |s| - 1 ==> !(s[i] == '{' && s[i + 1] == '}')
    ensures !Contains(s, "{}")
    decreases |s|
  {
    if s != [] {
      if |s| >= 2 {
        assert !(s[0] == '{' && s[1] == '}');
        assert s[..2] != "{}";
      }
      NoEmptyField(s[1..]);
    }
  }

  /** A field name that passes holds no '.' or '[', so it is its own head. */
  lemma AllowedNameIsItsHead(name: string, allowed: set<string>)
    requires NameAllowed(name, allowed)
    ensures FieldHead(name) == name
  {
  }

  /** Rendering fields whose names pass, with the fields nested in their
      specs passing at the top level, never evaluates an attribute or an
      item of n. */
  lemma {:induction false} RenderNoAttributeAccess(items: seq<Item>, v: Value, depth: nat, allowed: set<string>)
    requires depth <= 2
    requires forall i :: 0 <= i < |items| && items[i].field.Some? ==>
               NameAllowed(items[i].field.value.name, allowed)
               && (depth == 2 ==> FieldAccepted(items[i].field.value, allowed))
    ensures RenderItems(items, v, depth).Failure? ==> !RenderItems(items, v, depth).error.AttributeAccess?
    decreases depth, |items|
  {
    if items != [] {
      ItemNoAttributeAccess(items[0], v, depth, allowed);
      RenderNoAttributeAccess(items[1..], v, depth, allowed);
    }
  }

  lemma {:induction false} ItemNoAttributeAccess(item: Item, v: Value, depth: nat, allowed: set<string>)
    requires depth <= 2
    requires item.field.Some? ==>
               NameAllowed(item.field.value.name, allowed)
               && (depth == 2 ==> FieldAccepted(item.field.value, allowed))
    ensures RenderItem(item, v, depth).Failure? ==> !RenderItem(item, v, depth).error.AttributeAccess?
    decreases depth, 0
  {
    if item.field.Some? {
      var f := item.field.value;
      AllowedNameIsItsHead(f.name, allowed);
      if NeedsExpanding(f.spec) && depth > 1 {
        assert NestedItems(f) == Parse(f.spec).items;
        RenderNoAttributeAccess(Parse(f.spec).items, v, depth - 1, allowed);
      }
    }
  }

  /** With the corrected validator, a template that is accepted never makes
      str.format evaluate an attribute or an item of n, whatever n is. */
  lemma AcceptedNeverReachesAttributes(template: string, allowed: set<string>, v: Value)
    requires Rejection(Parse(template), allowed).None?
    ensures Render(Parse(template).items, v).Failure? ==> !Render(Parse(template).items, v).error.AttributeAccess?
  {
    RejectionIff(Parse(template), allowed);
    RenderNoAttributeAccess(Parse(template).items, v, 2, allowed);
  }

  // ---------------------------------------------------------------------
  // URLs

  /** `s.replace("{", "X").replace("}", "X")`, the text ensure_scheme
      hands to urlparse. */
  function SchemeProbe(s: string): string
  {
    Replace(Replace(s, "{", "X"), "}", "X")
  }

  /** `s.replace("{", "").replace("}", "")`, the text build_url_from_template
      hands to urlparse. */
  function RemoveBraces(s: string): string
  {
    Replace(Replace(s, "{", ""), "}", "")
  }

  /** urlparse(s).scheme is non-empty: s has a first ':' after at least one
      character, starts with an ASCII letter, and holds only letters,
      digits, '+', '-' and '.' before that ':'. */
  predicate HasScheme(s: string)
  {
    var i := IndexOf(s, ':');
    i > 0 && IsAsciiLetter(s[0]) && forall j :: 0 <= j < i ==> IsSchemeChar(s[j])
  }

  predicate IsAsciiLetter(c: char) { 'a' <= c <= 'z' || 'A' <= c <= 'Z' }

  predicate IsSchemeChar(c: char) { IsAsciiLetter(c) || IsDigit(c) || c == '+' || c == '-' || c == '.' }

  lemma HttpHasScheme(rest: string)
    ensures HasScheme("http://" + rest)
  {
    var s := "http://" + rest;
    assert s[4] == ':' && forall j :: 0 <= j < 4 ==> s[j] != ':' && IsSchemeChar(s[j]);
  }

  lemma {:induction false} ReplaceAbsentChar(s: string, c: char, rep: string)
    requires forall i :: 0 <= i < |s| ==> s[i] != c
    ensures Replace(s, [c], rep) == s
  {
    if s != [] {
      ReplaceAbsentChar(s[1..], c, rep);
    }
  }

  /** Rewriting braces leaves the prefix "http://" alone. */
  lemma ReplaceAfterHttp(rest: string, c: char, rep: string)
    requires c == '{' || c == '}'
    ensures Replace("http://" + rest, [c], rep) == "http://" + Replace(rest, [c], rep)
  {
    ReplaceCharAppend("http://", rest, c, rep);
    HttpHasNoBrace(c, rep);
  }

  lemma HttpHasNoBrace(c: char, rep: string)
    requires c == '{' || c == '}'
    ensures Replace("http://", [c], rep) == "http://"
  {
    ReplaceAbsentChar("http://", c, rep);
  }

  /** ensure_scheme: prefixes "http://" unless the template, with its braces
      read as letters, already has a scheme. Either way the result has one. */
  function EnsureScheme(template: string): (r: string)
    ensures HasScheme(SchemeProbe(r))
    ensures r == template || r == "http://" + template
    ensures HasScheme(SchemeProbe(template)) ==> r == template
    ensures !HasScheme(SchemeProbe(template)) ==> r == "http://" + template
  {
    if HasScheme(SchemeProbe(template)) then template
    else
      ReplaceAfterHttp(template, '{', "X");
      ReplaceAfterHttp(Replace(template, "{", "X"), '}', "X");
      HttpHasScheme(SchemeProbe(template));
      "http://" + template
  }

  /** build_url_from_template: the template with a scheme, formatted, with
      surrounding whitespace stripped, and prefixed with "http://" when the
      result, braces removed, has no scheme. A URL it returns always has a
      scheme once its braces are removed. */
  function BuildUrl(templateBase: string, n: int, pad: int): (r: Result<string, Error>)
    ensures r.Success? ==> HasScheme(RemoveBraces(r.value))
  {
    match Formatted(EnsureScheme(templateBase), n, pad)
    case Failure(e) => Failure(e)
    case Success(u) => Success(WithScheme(Strip(u)))
  }

  /** The formatted URL, prefixed with "http://" when it has no scheme once
      its braces are removed. */
  function WithScheme(url: string): (r: string)
    ensures HasScheme(RemoveBraces(r))
    ensures r == url || r == "http://" + url
  {
    if HasScheme(RemoveBraces(url)) then url
    else
      ReplaceAfterHttp(url, '{', "");
      ReplaceAfterHttp(Replace(url, "{", ""), '}', "");
      HttpHasScheme(RemoveBraces(url));
      "http://" + url
  }

  /** A brace-free text without ':' gets "http://" and its one {n} field
      becomes PlainValue(n, pad). */
  lemma BuildUrlPlain(t: string, lit: string, n: int, pad: int)
    requires t == lit + "{n}"
    requires BraceFree(lit) && forall i :: 0 <= i < |lit| ==> lit[i] != ':'
    ensures BuildUrl(t, n, pad) == Success("http://" + (lit + PlainValue(n, pad)))
  {
    var u := "http://" + t;
    EnsureSchemePlain(t, lit);
    HttpPlainFormatted(u, lit, n, pad);
    PlainValueShape(n, pad);
    HttpUrlKept(lit + PlainValue(n, pad));
  }

  /** The worked example: "example.com/page/{n}" with n = 2 and pad = 2
      becomes "http://example.com/page/02". */
  lemma BuildUrlExample(t: string, lit: string)
    requires lit == "example.com/page/" && t == lit + "{n}"
    ensures BuildUrl(t, 2, 2) == Success("http://" + (lit + "02"))
  {
    ExamplePathPlain(lit);
    BuildUrlPlain(t, lit, 2, 2);
    TwoInTwoColumns();
  }

  lemma ExamplePathPlain(lit: string)
    requires lit == "example.com/page/"
    ensures BraceFree(lit) && forall i :: 0 <= i < |lit| ==> lit[i] != ':'
  {
  }

  lemma TwoInTwoColumns()
    ensures PlainValue(2, 2) == "02"
  {
    assert NatToString(2) == "2" by { assert DigitChar(2) == '2'; }
    assert IntToString(2) == "2";
    assert Repeat('0', 1) == "0";
    assert "" + "0" + "2" == "02";
  }

  /** A template that already starts with "http://" is kept by ensure_scheme. */
  lemma EnsureSchemeHttp(t: string, rest: string)
    requires t == "http://" + rest
    ensures EnsureScheme(t) == t
  {
    ReplaceAfterHttp(rest, '{', "X");
    ReplaceAfterHttp(Replace(rest, "{", "X"), '}', "X");
    HttpHasScheme(SchemeProbe(rest));
  }

  /** Text followed by one {n} field passes the validator, and neither
      rewriting of "{}" changes it. */
  lemma OneFieldAccepted(t: string, lit: string)
    requires t == lit + "{n}" && BraceFree(lit)
    ensures EmptyFieldsAsN(t) == t && Replace(t, "{}", "{n}") == t
    ensures Rejection(Parse(t), DefaultAllowed) == None
  {
    assert t == lit + "{n}" + "" && BraceFree("");
    OneFieldTemplateScan(t, lit, "");
    OneFieldItems(lit, "", "");
    PlainAccepted(Parse(t));
    RejectionIff(Parse(t), DefaultAllowed);
  }

  lemma EnsureSchemePlain(t: string, lit: string)
    requires t == lit + "{n}"
    requires BraceFree(lit) && forall i :: 0 <= i < |lit| ==> lit[i] != ':'
    ensures EnsureScheme(t) == "http://" + t
  {
    ProbePlain(lit);
  }

  /** BuildUrl keeps an "http://" URL that ends with a digit as it is. */
  lemma HttpUrlKept(rest: string)
    requires rest != [] && IsDigit(rest[|rest| - 1])
    ensures WithScheme(Strip("http://" + rest)) == "http://" + rest
  {
    StripUnchanged("http://" + rest);
    ReplaceAfterHttp(rest, '{', "");
    ReplaceAfterHttp(Replace(rest, "{", ""), '}', "");
    HttpHasScheme(RemoveBraces(rest));
  }

  lemma HttpPlainFormatted(u: string, lit: string, n: int, pad: int)
    requires u == "http://" + (lit + "{n}")
    requires BraceFree(lit)
    ensures Formatted(u, n, pad) == Success("http://" + (lit + PlainValue(n, pad)))
  {
    var head := "http://" + lit;
    var v := PlainValue(n, pad);
    HttpSplit(u, head, lit, v);
    HttpBraceFree(lit);
    FormattedOneField(u, head, "", n, pad);
  }

  lemma HttpBraceFree(lit: string)
    requires BraceFree(lit)
    ensures BraceFree("http://" + lit)
  {
    BraceFreeConcat("http://", lit);
  }

  lemma HttpSplit(u: string, head: string, lit: string, v: string)
    requires u == "http://" + (lit + "{n}") && head == "http://" + lit
    ensures u == head + "{n}" + "" && head + v + "" == "http://" + (lit + v)
  {
  }

  /** The text ensure_scheme probes for lit + "{n}" is lit + "XnX", which
      has no scheme when lit has no ':'. */
  lemma ProbePlain(lit: string)
    requires BraceFree(lit) && forall i :: 0 <= i < |lit| ==> lit[i] != ':'
    ensures SchemeProbe(lit + "{n}") == lit + "XnX"
    ensures !HasScheme(lit + "XnX")
  {
    ProbeField();
    ProbeBraceFreeAppend(lit, "{n}", '{');
    ProbeBraceFreeAppend(lit, "Xn}", '}');
    assert IndexOf(lit + "XnX", ':') == -1;
  }

  lemma ProbeBraceFreeAppend(lit: string, b: string, c: char)
    requires BraceFree(lit) && (c == '{' || c == '}')
    ensures Replace(lit + b, [c], "X") == lit + Replace(b, [c], "X")
  {
    ReplaceCharAppend(lit, b, c, "X");
    ReplaceAbsentChar(lit, c, "X");
  }

  lemma ProbeField()
    ensures Replace("{n}", "{", "X") == "Xn}"
    ensures Replace("Xn}", "}", "X") == "XnX"
  {
    ProbeOpenBrace();
    ProbeCloseBrace();
  }

  lemma ProbeOpenBrace()
    ensures Replace("{n}", "{", "X") == "Xn}"
  {
    assert "{n}" == "{" + "n}";
    ReplaceCharAppend("{", "n}", '{', "X");
    assert Replace("{", "{", "X") == "X";
    assert Replace("n}", "{", "X") == "n}";
  }

  lemma ProbeCloseBrace()
    ensures Replace("Xn}", "}", "X") == "XnX"
  {
    assert "Xn}" == "Xn" + "}";
    ReplaceCharAppend("Xn", "}", '}', "X");
  }

  /** PlainValue(n, pad) is a non-empty numeral, so it ends with a digit. */
  lemma PlainValueShape(n: int, pad: int)
    ensures PlainValue(n, pad) != [] && IsDigit(PlainValue(n, pad)[|PlainValue(n, pad)| - 1])
  {
    IntToStringRoundTrip(n);
    var v := PlainValue(n, pad);
    assert DecimalValue(v).Some?;
    if v[0] == '-' {
      assert AllDigits(v[1..]);
      assert v[|v| - 1] == v[1..][|v| - 2];
    }
  }

  /** A text that neither starts nor ends with whitespace is its own strip. */
  lemma StripUnchanged(s: string)
    requires s != [] && !IsSpace(s[0]) && !IsSpace(s[|s| - 1])
    ensures Strip(s) == s
  {
    assert StripLeading(s) == s;
    assert StripTrailing(s) == s;
  }
}
