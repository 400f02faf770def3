/** gerar_links_iter: the numbered link records for n in
    range(start, end + 1, step). */
module Generator {
  import opened Wrappers
  import opened Text
  import opened Formatter
  import opened Links
  import opened Ranges

  /** One yielded dictionary {"n": n, "url": url, "label": labelText}. */
  datatype LinkRecord = LinkRecord(n: int, url: string, labelText: string)

  /** What iterating the generator produces: the records it yielded, then
      the exception that ended the iteration, if any. */
  type LinkStream = Emitted<LinkRecord, Error>

  /** The record the loop body builds for n: the URL, then the label,
      HTML-escaped; the first of the two that fails ends the iteration. */
  function RecordAt(templateBase: string, labelTemplate: string, pad: int, n: int): (r: Result<LinkRecord, Error>)
    ensures r.Success? <==> BuildUrl(templateBase, n, pad).Success? && Formatted(labelTemplate, n, pad).Success?
    ensures r.Success? ==> r.value == LinkRecord(n, BuildUrl(templateBase, n, pad).value,
                                                 HtmlEscape(Formatted(labelTemplate, n, pad).value))
    ensures r.Failure? ==> r.error == if BuildUrl(templateBase, n, pad).Failure? then BuildUrl(templateBase, n, pad).error
                                      else Formatted(labelTemplate, n, pad).error
    ensures r.Success? ==> r.value.n == n && HasScheme(RemoveBraces(r.value.url))
    ensures r.Success? ==> forall i :: 0 <= i < |r.value.labelText| ==> !IsHtmlSpecial(r.value.labelText[i])
    ensures r.Success? ==> HtmlUnescape(r.value.labelText) == Formatted(labelTemplate, n, pad).value
  {
    match BuildUrl(templateBase, n, pad)
    case Failure(e) => Failure(e)
    case Success(url) =>
      match Formatted(labelTemplate, n, pad)
      case Failure(e) => Failure(e)
      case Success(text) =>
        HtmlEscapeHasNoSpecials(text);
        HtmlEscapeRoundTrip(text);
        Success(LinkRecord(n, url, HtmlEscape(text)))
  }

  /** The loop body of gerar_links_iter as a function of n. */
  function Records(templateBase: string, labelTemplate: string, pad: int): int -> Result<LinkRecord, Error>
  {
    n => RecordAt(templateBase, labelTemplate, pad, n)
  }

  /** The exception gerar_links_iter raises before its first record, if
      any: the argument checks in the source's order, then the validation
      of the label template (its {} spelled {n}) and of the URL template.
      `maxRange` is the configured MAX_RANGE, if any. */
  function ArgumentFailure(templateBase: string, start: int, end: int, step: int,
                           labelTemplate: string, maxRange: Option<int>): (r: Option<Error>)
    ensures start > end ==> r == Some(StartAfterEnd)
    ensures start <= end && step <= 0 ==> r == Some(NonPositiveStep)
    ensures start <= end && step > 0 && maxRange.Some? && end - start + 1 > maxRange.value ==>
              r == Some(RangeTooLarge(end - start + 1, maxRange.value))
    ensures r.None? ==> start <= end && step > 0 && (maxRange.None? || end - start + 1 <= maxRange.value)
    ensures r.None? ==> Rejection(Parse(EmptyFieldsAsN(labelTemplate)), DefaultAllowed).None?
                        && Rejection(Parse(Replace(templateBase, "{}", "{n}")), DefaultAllowed).None?
    ensures start <= end && step > 0 && (maxRange.None? || end - start + 1 <= maxRange.value) ==>
              (r.None? <==> Rejection(Parse(EmptyFieldsAsN(labelTemplate)), DefaultAllowed).None?
                            && Rejection(Parse(Replace(templateBase, "{}", "{n}")), DefaultAllowed).None?)
    ensures start <= end && step > 0 && (maxRange.None? || end - start + 1 <= maxRange.value)
            && Rejection(Parse(EmptyFieldsAsN(labelTemplate)), DefaultAllowed).Some? ==>
              r == Rejection(Parse(EmptyFieldsAsN(labelTemplate)), DefaultAllowed)
    ensures r.Some? && r.value.UnsafeTemplate? ==> !NameAllowed(r.value.field, DefaultAllowed)
  {
    if start > end then Some(StartAfterEnd)
    else if step <= 0 then Some(NonPositiveStep)
    else if maxRange.Some? && end - start + 1 > maxRange.value then
      Some(RangeTooLarge(end - start + 1, maxRange.value))
    else
      RejectionIff(Parse(EmptyFieldsAsN(labelTemplate)), DefaultAllowed);
      RejectionIff(Parse(Replace(templateBase, "{}", "{n}")), DefaultAllowed);
      match Rejection(Parse(EmptyFieldsAsN(labelTemplate)), DefaultAllowed)
      case Some(e) => Some(e)
      case None => Rejection(Parse(Replace(templateBase, "{}", "{n}")), DefaultAllowed)
  }

  /** Everything gerar_links_iter yields and raises: nothing but the
      exception when an argument check fails, otherwise the records of the
      loop up to the first failing one. */
  function GeneratedLinks(templateBase: string, start: int, end: int, pad: int, step: int,
                          labelTemplate: string, maxRange: Option<int>): LinkStream
  {
    match ArgumentFailure(templateBase, start, end, step, labelTemplate, maxRange)
    case Some(e) => Emitted([], Some(e))
    case None => Emit(Records(templateBase, EmptyFieldsAsN(labelTemplate), pad), start, end, step)
  }

  /** The checks gerar_links_iter makes before its loop; also returns the
      label template with {} rewritten to {n}. */
  method CheckArguments(templateBase: string, start: int, end: int, step: int,
                        labelTemplate: string, maxRange: Option<int>)
    returns (labelT: string, failure: Option<Error>)
    ensures labelT == EmptyFieldsAsN(labelTemplate)
    ensures failure == ArgumentFailure(templateBase, start, end, step, labelTemplate, maxRange)
  {
    labelT := labelTemplate;
    if Contains(labelT, "{}") {
      labelT := Replace(labelT, "{}", "{n}");
    }
    if start > end {
      return labelT, Some(StartAfterEnd);
    }
    if step <= 0 {
      return labelT, Some(NonPositiveStep);
    }
    if maxRange.Some? && end - start + 1 > maxRange.value {
      return labelT, Some(RangeTooLarge(end - start + 1, maxRange.value));
    }
    var check := ValidateTemplateAllowedFields(labelT, Some(DefaultAllowed));
    if check.Fail? {
      return labelT, Some(check.error);
    }
    check := ValidateTemplateAllowedFields(Replace(templateBase, "{}", "{n}"), Some(DefaultAllowed));
    if check.Fail? {
      return labelT, Some(check.error);
    }
    return labelT, None;
  }

  /** `make` is the loop body of gerar_links_iter as a function of n. */
  ghost predicate IsLoopBody(make: int -> Result<LinkRecord, Error>, templateBase: string, labelT: string, pad: int)
  {
    forall x {:trigger RecordAt(templateBase, labelT, pad, x)} :: make(x) == RecordAt(templateBase, labelT, pad, x)
  }

  /** One turn of the loop of gerar_links_iter: the URL, then the label. */
  method MakeRecord(templateBase: string, labelT: string, pad: int, n: int,
                    ghost make: int -> Result<LinkRecord, Error>)
    returns (r: Result<LinkRecord, Error>)
    requires IsLoopBody(make, templateBase, labelT, pad)
    ensures r == make(n)
  {
    assert make(n) == RecordAt(templateBase, labelT, pad, n);
    var url := BuildUrl(templateBase, n, pad);
    if url.Failure? {
      return Failure(url.error);
    }
    var text := SafeFormat(labelT, n, pad);
    if text.Failure? {
      return Failure(text.error);
    }
    return Success(LinkRecord(n, url.value, HtmlEscape(text.value)));
  }

  /** The loop of gerar_links_iter: for n in range(start, end + 1, step),
      build the URL and the label, stopping at the first exception. */
  method EmitRecords(templateBase: string, labelT: string, pad: int, start: int, end: int, step: int,
                     ghost make: int -> Result<LinkRecord, Error>)
    returns (s: LinkStream)
    requires step > 0 && IsLoopBody(make, templateBase, labelT, pad)
    ensures s == Emit(make, start, end, step)
  {
    ghost var all := Emit(make, start, end, step);
    var records: seq<LinkRecord> := [];
    var n := start;
    assert records + all.records == all.records;
    while n <= end
      invariant all == Emitted(records + Emit(make, n, end, step).records, Emit(make, n, end, step).failure)
      decreases if n <= end then end - n + 1 else 0
    {
      var record := MakeRecord(templateBase, labelT, pad, n, make);
      if record.Failure? {
        EmitStop(make, n, end, step, all, records, record.error);
        return Emitted(records, Some(record.error));
      }
      EmitAppend(make, n, end, step, all, records, record.value);
      records := records + [record.value];
      n := n + step;
    }
    assert records + [] == records;
    return Emitted(records, None);
  }

  /** gerar_links_iter, run to the end or to the first exception. An
      argument or template error is raised before any record is yielded. */
  method GenerateLinks(templateBase: string, start: int, end: int, pad: int, step: int,
                       labelTemplate: string, maxRange: Option<int>)
    returns (s: LinkStream)
    ensures s == GeneratedLinks(templateBase, start, end, pad, step, labelTemplate, maxRange)
    ensures ArgumentFailure(templateBase, start, end, step, labelTemplate, maxRange).Some? ==>
              s == Emitted([], ArgumentFailure(templateBase, start, end, step, labelTemplate, maxRange))
  {
    var labelT, failure := CheckArguments(templateBase, start, end, step, labelTemplate, maxRange);
    if failure.Some? {
      return Emitted([], failure);
    }
    s := EmitRecords(templateBase, labelT, pad, start, end, step, Records(templateBase, labelT, pad));
  }

  // ---------------------------------------------------------------------
  // What the records are

  /** When the generator runs to completion it yields one record for each
      value of range(start, end + 1, step), (end - start) / step + 1 of them,
      for start, start + step, ..., each congruent to start modulo step,
      strictly increasing, none past end, each with the URL and the
      HTML-escaped label of its own n. */
  lemma GeneratedRecords(tb: string, start: int, end: int, pad: int, step: int, lt: string, maxRange: Option<int>)
    requires GeneratedLinks(tb, start, end, pad, step, lt, maxRange).failure.None?
    ensures var rs := GeneratedLinks(tb, start, end, pad, step, lt, maxRange).records;
            var vs := RangeValues(start, end, step);
            |rs| == |vs| == (end - start) / step + 1
            && (forall i :: 0 <= i < |rs| ==> rs[i].n == vs[i])
            && (forall i :: 0 <= i < |rs| ==>
                  BuildUrl(tb, rs[i].n, pad) == Success(rs[i].url)
                  && Formatted(EmptyFieldsAsN(lt), rs[i].n, pad).Success?
                  && rs[i].labelText == HtmlEscape(Formatted(EmptyFieldsAsN(lt), rs[i].n, pad).value))
  {
    var make := Records(tb, EmptyFieldsAsN(lt), pad);
    EmitShape(make, start, end, step);
    RangeValuesShape(start, end, step);
    var rs := Emit(make, start, end, step).records;
    var vs := RangeValues(start, end, step);
    forall i | 0 <= i < |rs|
      ensures rs[i].n == vs[i]
      ensures BuildUrl(tb, rs[i].n, pad) == Success(rs[i].url)
      ensures Formatted(EmptyFieldsAsN(lt), rs[i].n, pad).Success?
      ensures rs[i].labelText == HtmlEscape(Formatted(EmptyFieldsAsN(lt), rs[i].n, pad).value)
    {
      assert make(vs[i]) == Success(rs[i]);
    }
  }

  /** When the generator stops with an exception that is not an argument or
      template error, it has yielded the records of the first values of
      the range, and the exception is the one the next value's URL or label
      raised. */
  lemma GeneratedStopsAtFirstFailure(tb: string, start: int, end: int, pad: int, step: int, lt: string,
                                     maxRange: Option<int>)
    requires ArgumentFailure(tb, start, end, step, lt, maxRange).None?
    requires GeneratedLinks(tb, start, end, pad, step, lt, maxRange).failure.Some?
    ensures var s := GeneratedLinks(tb, start, end, pad, step, lt, maxRange);
            var vs := RangeValues(start, end, step);
            |s.records| < |vs|
            && (forall i :: 0 <= i < |s.records| ==> RecordAt(tb, EmptyFieldsAsN(lt), pad, vs[i]) == Success(s.records[i]))
            && RecordAt(tb, EmptyFieldsAsN(lt), pad, vs[|s.records|]) == Failure(s.failure.value)
  {
    var make := Records(tb, EmptyFieldsAsN(lt), pad);
    EmitShape(make, start, end, step);
    var s := Emit(make, start, end, step);
    var vs := RangeValues(start, end, step);
    assert make(vs[|s.records|]) == Failure(s.failure.value);
    forall i | 0 <= i < |s.records|
      ensures RecordAt(tb, EmptyFieldsAsN(lt), pad, vs[i]) == Success(s.records[i])
    {
      assert make(vs[i]) == Success(s.records[i]);
    }
  }

  /** Every label the generator yields is HTML-escaped: it holds no raw <,
      >, " or '. */
  lemma LabelsEscaped(tb: string, start: int, end: int, pad: int, step: int, lt: string, maxRange: Option<int>)
    ensures var rs := GeneratedLinks(tb, start, end, pad, step, lt, maxRange).records;
            forall i :: 0 <= i < |rs| ==> forall c :: 0 <= c < |rs[i].labelText| ==> !IsHtmlSpecial(rs[i].labelText[c])
  {
    var rs := GeneratedLinks(tb, start, end, pad, step, lt, maxRange).records;
    if rs != [] {
      var make := Records(tb, EmptyFieldsAsN(lt), pad);
      EmitShape(make, start, end, step);
      var vs := RangeValues(start, end, step);
      forall i | 0 <= i < |rs|
        ensures forall c :: 0 <= c < |rs[i].labelText| ==> !IsHtmlSpecial(rs[i].labelText[c])
      {
        assert make(vs[i]) == Success(rs[i]);
        HtmlEscapeHasNoSpecials(Formatted(EmptyFieldsAsN(lt), vs[i], pad).value);
      }
    }
  }

  /** gerar_links_iter("http://x/{n.__class__}", 1, 2) with the default
      label "Capítulo {n}" raises UnsafeTemplateError before yielding. */
  lemma UnsafeTemplateExample(base: string, labelTemplate: string)
    requires base == "http://x/{n.__class__}" && labelTemplate == "Capítulo {n}"
    ensures GeneratedLinks(base, 1, 2, 0, 1, labelTemplate, None) == Emitted([], Some(UnsafeTemplate("n.__class__")))
  {
    var lit, name := "http://x/", "n.__class__";
    UnsafeExampleSplit(base, labelTemplate);
    OneFieldAccepted(labelTemplate, "Capítulo ");
    OneFieldNoEmptyField(lit, name, "");
    assert Replace(base, "{}", "{n}") == base;
    FirstFieldRejected(base, lit, name, "");
  }

  lemma UnsafeExampleSplit(base: string, labelTemplate: string)
    requires base == "http://x/{n.__class__}" && labelTemplate == "Capítulo {n}"
    ensures base == "http://x/" + "{" + "n.__class__" + "}" + ""
    ensures BraceFree("http://x/") && BraceFree("n.__class__") && BraceFree("") && "n.__class__" != []
    ensures forall j :: 0 <= j < |"n.__class__"| ==> IsPlainNameChar("n.__class__"[j])
    ensures !NameAllowed("n.__class__", DefaultAllowed)
    ensures labelTemplate == "Capítulo " + "{n}" && BraceFree("Capítulo ")
  {
    assert "n.__class__"[1] == '.';
  }

  /** gerar_links_iter("http://x/{n}", 1, 5, step=2) with the default pad
      and label runs to the end and yields the records for 1, 3 and 5. */
  lemma StepTwoExample(base: string, labelTemplate: string)
    requires base == "http://x/{n}" && labelTemplate == "Capítulo {n}"
    ensures var s := GeneratedLinks(base, 1, 5, 0, 2, labelTemplate, None);
            s.failure == None && |s.records| == 3
            && s.records[0].n == 1 && s.records[1].n == 3 && s.records[2].n == 5
  {
    var urlLit, labelLit := "http://x/", "Capítulo ";
    StepTwoSplit(base, labelTemplate, urlLit, labelLit);
    OneFieldAccepted(base, urlLit);
    OneFieldAccepted(labelTemplate, labelLit);
    EnsureSchemeHttp(base, "x/{n}");
    PlainRunCompletes(base, urlLit, labelTemplate, labelLit, 1, 5, 0, 2);
    GeneratedRecords(base, 1, 5, 0, 2, labelTemplate, None);
    StepTwoRange();
  }

  lemma StepTwoSplit(base: string, labelTemplate: string, urlLit: string, labelLit: string)
    requires base == "http://x/{n}" && labelTemplate == "Capítulo {n}"
    requires urlLit == "http://x/" && labelLit == "Capítulo "
    ensures base == urlLit + "{n}" && BraceFree(urlLit) && base == "http://" + "x/{n}"
    ensures labelTemplate == labelLit + "{n}" && BraceFree(labelLit)
  {
  }

  /** range(1, 5 + 1, 2) is 1, 3, 5. */
  lemma StepTwoRange()
    ensures RangeValues(1, 5, 2) == [1, 3, 5]
  {
    assert RangeValues(7, 5, 2) == [];
  }

  /** With a URL template that keeps its scheme and a label, each a text
      followed by one {n} field, every value of the range gives a record. */
  lemma RecordAtPlain(tb: string, urlLit: string, lt: string, labelLit: string, pad: int, n: int)
    requires tb == urlLit + "{n}" && BraceFree(urlLit) && EnsureScheme(tb) == tb
    requires lt == labelLit + "{n}" && BraceFree(labelLit)
    ensures RecordAt(tb, lt, pad, n).Success?
  {
    assert tb == urlLit + "{n}" + "" && lt == labelLit + "{n}" + "" && BraceFree("");
    FormattedOneField(tb, urlLit, "", n, pad);
    FormattedOneField(lt, labelLit, "", n, pad);
  }

  /** Such templates never stop the generator early: a run whose argument
      checks pass yields a record for every value of the range. */
  lemma PlainRunCompletes(tb: string, urlLit: string, lt: string, labelLit: string,
                          start: int, end: int, pad: int, step: int)
    requires tb == urlLit + "{n}" && BraceFree(urlLit) && EnsureScheme(tb) == tb
    requires lt == labelLit + "{n}" && BraceFree(labelLit)
    requires ArgumentFailure(tb, start, end, step, lt, None).None?
    ensures GeneratedLinks(tb, start, end, pad, step, lt, None).failure.None?
  {
    OneFieldAccepted(lt, labelLit);
    var make := Records(tb, lt, pad);
    EmitShape(make, start, end, step);
    var s := Emit(make, start, end, step);
    if s.failure.Some? {
      var vs := RangeValues(start, end, step);
      RecordAtPlain(tb, urlLit, lt, labelLit, pad, vs[|s.records|]);
      assert false;
    }
  }
}
