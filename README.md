# gerador-links: a verified model of the link generator

`gerador_links_advanced_auth.py` generates numbered links such as
`http://example.com/page/001`, `.../002` and so on. A caller gives a URL
template, a label template, a range `start..end` with a `step`, and a
zero-padding width. Every template goes through a validator first. The
validator looks at the top-level field names that `string.Formatter.parse`
yields. It lets through only the name `n` and the empty name (`{}`, which
is read as `{n}`, but also `{:03d}` or `{!r}`). It refuses a top-level
name that holds `.`, `[` or `]` (`{n.__class__}`, `{n[0]}`). Fields nested
inside a format spec are not looked at; see "## Findings". The records are then streamed to one of five
writers (HTML, CSV, NDJSON, a JSON array or plain text), and `route_writer`
picks the writer by name.

The Dafny project models that module. Its files:

- `wrappers.dfy`: `Option`, `Result` and `Outcome`.
- `text.dfy`: decimal numerals, zero-filled integers, `str.replace`,
  `str.strip`, ASCII `lower()` and `html.escape` with its inverse.
- `formatter.dfy`: Python's `string.Formatter.parse` (the tuples it yields,
  then the error that ends the scan) and `str.format(n=v)` over those
  tuples. This covers nested fields inside a format spec.
- `links.dfy`: the validator, `safe_format`, `ensure_scheme` and
  `build_url_from_template`.
- `ranges.dfy`: `range(start, end + 1, step)` and the stream of results a
  lazy loop yields before its first exception.
- `generator.dfy`: `gerar_links_iter`.
- `writers.dfy`: the five streaming writers, an `OutputFile` class whose
  `text` grows with every `write`, and `route_writer`.

A generator in Python is lazy and can raise part-way through. The model
therefore describes a run as a `LinkStream`: the records yielded, then the
exception that ended the iteration, if any. Each writer is a method that
takes an `OutputFile` and writes to it. It is proved to leave the file holding exactly a
specification function of the stream: the opening framing, one chunk per
record in order, and the closing framing only when the generator finished
without raising.

## Model

| member | source | states |
|---|---|---|
| Links.ValidateTemplateAllowedFields | src/gerador_links_advanced_auth.py:30-41 | (corrected validator) passes exactly when every field of the scanned template, including the fields nested in a format spec, is allowed and names no attribute or item; otherwise fails with the first offending field or the scanner's syntax error |
| Links.CheckFieldNames | src/gerador_links_advanced_auth.py:35-41 | the validator's loop returns the first field name, in template order, that is not allowed, and that name is indeed not allowed |
| Links.FirstDisallowedSound | src/gerador_links_advanced_auth.py:35-41 | no name is reported exactly when every field name in the tuples is allowed, and a reported name is never allowed |
| Links.ItemsRejectionSound | src/gerador_links_advanced_auth.py:35-41 | the same if-and-only-if for the top-level fields together with the fields nested in their specs |
| Links.RejectionIff | src/gerador_links_advanced_auth.py:30-41 | a template is rejected exactly when it is not accepted; an UnsafeTemplate error names a field that is not allowed; a syntax error is the scanner's own |
| Links.DefaultNameAllowed | src/gerador_links_advanced_auth.py:33 | with the default set, exactly the names `n` and the empty name pass |
| Links.LiteralTemplateAccepted | src/gerador_links_advanced_auth.py:35-37 | a template without braces has no fields and is always accepted |
| Links.FirstFieldRejected | src/gerador_links_advanced_auth.py:38-41 | a template whose first field has a disallowed name is rejected with UnsafeTemplate naming that field |
| Links.ScanForSpec | src/gerador_links_advanced_auth.py:60-64 | the has_spec loop answers true exactly when some field carries a non-empty format spec |
| Links.SafeFormat | src/gerador_links_advanced_auth.py:51-75 | returns what the specification function Formatted gives: `{}` read as `{n}`, validation by the corrected validator, then formatting with the integer when some field has a spec, or with the padded or plain numeral otherwise |
| Links.FormattedSpellings | src/gerador_links_advanced_auth.py:54-55 | writing `{}` or `{n}` in a template gives the same result |
| Links.FormattedPlain | src/gerador_links_advanced_auth.py:72-75 | a template whose fields are all plain `{n}` gets the padded or plain numeral substituted for every field |
| Links.FormattedOneField | src/gerador_links_advanced_auth.py:72-75 | text, `{n}`, text (brace-free) formats to the texts around the padded or plain numeral |
| Links.FormattedIntSpec | src/gerador_links_advanced_auth.py:66-68 | text, `{n:spec}`, text with a `[0][width]d` spec formats to the texts around n zero- or space-filled to the width, whatever `pad` is |
| Links.PositionalSpecFails | src/gerador_links_advanced_auth.py:66-70 | a positional field with a spec, `{:spec}`, passes validation but `format(n=n)` has no positional argument, so safe_format raises its ValueError |
| Links.SpecExample | tests/test_gerador_links.py:5 | `safe_format("{n:03d}", 5, pad=0)` is `"005"` |
| Links.PadExample | tests/test_gerador_links.py:6 | `safe_format("{n}", 5, pad=3)` is `"005"` |
| Links.PlainExample | tests/test_gerador_links.py:7 | `safe_format("Cap {n}", 12, pad=0)` is `"Cap 12"` |
| Links.AsWrittenAcceptsNestedAttribute | src/gerador_links_advanced_auth.py:33-41 | for `{n:{path}}` with an attribute path, the validator as written accepts the template and `str.format` then evaluates the attribute; the corrected validator rejects it with that path |
| Links.AcceptedNeverReachesAttributes | src/gerador_links_advanced_auth.py:30-41 | once the (corrected) validator accepts a template, formatting it never evaluates an attribute or item of n, at any nesting depth |
| Links.EnsureScheme | src/gerador_links_advanced_auth.py:44-48 | the template is kept exactly when, with braces read as `X`, it has a URL scheme, and is otherwise prefixed with `http://`; either way the result has a scheme |
| Links.EnsureSchemeHttp | src/gerador_links_advanced_auth.py:45-48 | a template that starts with `http://` is returned unchanged |
| Links.OneFieldAccepted | src/gerador_links_advanced_auth.py:54-57 | text followed by one `{n}` is left alone by the `{}` rewriting and passes the validator |
| Links.EnsureSchemePlain | src/gerador_links_advanced_auth.py:45-47 | a brace-free path without `:` followed by `{n}` gets `http://` |
| Links.BuildUrl | src/gerador_links_advanced_auth.py:78-85 | every URL it returns has a scheme once its braces are removed |
| Links.WithScheme | src/gerador_links_advanced_auth.py:82-84 | the result has a scheme with braces removed, and is the URL itself or the URL behind `http://` |
| Links.BuildUrlPlain | src/gerador_links_advanced_auth.py:78-85 | a schemeless template `path{n}` becomes `http://` + path + the padded numeral |
| Links.BuildUrlExample | tests/test_gerador_links.py:10-12 | `build_url_from_template("example.com/page/{n}", 2, pad=2)` is `http://example.com/page/02`: it starts with `http://` and holds `02` |
| Links.HttpUrlKept | src/gerador_links_advanced_auth.py:81-84 | a URL that already starts with `http://` and ends in a digit is neither stripped nor prefixed again |
| Formatter.RenderPlain | src/gerador_links_advanced_auth.py:73-75 | formatting plain fields with a string value substitutes that string for every field |
| Formatter.Lookup | src/gerador_links_advanced_auth.py:68 | exactly the name `n` resolves; an AttributeAccess failure is only ever reported for a name that goes on past its head with `.` or `[` |
| Formatter.Convert | src/gerador_links_advanced_auth.py:68 | a failure only ever comes from a conversion character, and names that character |
| Formatter.ApplySpec | src/gerador_links_advanced_auth.py:68 | an empty spec never fails, and a failure is an invalid or an unsupported spec |
| Formatter.ParseLiteral | src/gerador_links_advanced_auth.py:35 | a non-empty brace-free template scans to one literal tuple with no field |
| Formatter.ParseNamedField | src/gerador_links_advanced_auth.py:35 | text followed by `{name}` scans to a tuple with that literal and that field, then the rest of the template |
| Formatter.ParseSpecField | src/gerador_links_advanced_auth.py:61 | text followed by `{name:spec}` scans to a tuple carrying that spec |
| Formatter.ParseNestedSpecField | src/gerador_links_advanced_auth.py:61 | a spec holding one nested field is kept whole in the outer field's tuple |
| Generator.ArgumentFailure | src/gerador_links_advanced_auth.py:96-122 | the checks come in the source's order: start after end, then the step, then the maximum range. Once those pass, there is no error exactly when both templates are accepted; a rejected label template gives its own error, ahead of the URL template's; an UnsafeTemplate error names a disallowed field |
| Generator.CheckArguments | src/gerador_links_advanced_auth.py:96-122 | computes exactly ArgumentFailure and the label template with `{}` rewritten to `{n}` |
| Generator.RecordAt | src/gerador_links_advanced_auth.py:125-127 | a record exists exactly when the URL and the label both format, and the URL's error comes first; a record holds its own n, a URL with a scheme once braces are removed, and a label with no raw `<`, `>`, `"` or `'` that unescapes to the formatted label |
| Generator.MakeRecord | src/gerador_links_advanced_auth.py:125-127 | the loop body builds exactly RecordAt for n |
| Generator.EmitRecords | src/gerador_links_advanced_auth.py:124-127 | the loop yields exactly the stream Emit specifies over `range(start, end + 1, step)` |
| Generator.GenerateLinks | src/gerador_links_advanced_auth.py:88-127 | yields exactly GeneratedLinks; a failed argument check yields no record, only the error |
| Generator.GeneratedRecords | src/gerador_links_advanced_auth.py:124-127 | a run without error yields `(end - start) / step + 1` records, the i-th for the i-th value of the range, each with its built URL and its escaped label |
| Generator.GeneratedStopsAtFirstFailure | src/gerador_links_advanced_auth.py:124-127 | a run that raises in the loop yields the records of the values before the first failing one, and its error is that value's error |
| Generator.LabelsEscaped | src/gerador_links_advanced_auth.py:127 | no yielded label holds a raw `<`, `>`, `"` or `'` |
| Generator.UnsafeTemplateExample | tests/test_gerador_links.py:18-20 | `gerar_links_iter("http://x/{n.__class__}", 1, 2)` raises UnsafeTemplateError before any record |
| Generator.StepTwoExample | tests/test_gerador_links.py:14-16 | `gerar_links_iter("http://x/{n}", 1, 5, pad=0, step=2)` with the default label runs without error and yields exactly three records, with n = 1, 3 and 5 |
| Generator.StepTwoRange | tests/test_gerador_links.py:16 | `range(1, 5 + 1, 2)` is `[1, 3, 5]` |
| Generator.PlainRunCompletes | src/gerador_links_advanced_auth.py:124-127 | with a URL template that keeps its scheme and a label, each text followed by one `{n}`, a run whose argument checks pass never stops early |
| Generator.RecordAtPlain | src/gerador_links_advanced_auth.py:125-127 | for such templates the loop body builds a record for every n |
| Ranges.RangeValuesShape | src/gerador_links_advanced_auth.py:124 | the range is empty when start is past end, and otherwise has `(end - start) / step + 1` values, the i-th being `start + i * step <= end` |
| Ranges.RangeValuesOrdered | src/gerador_links_advanced_auth.py:124 | every value lies in `[start, end]` and is congruent to start modulo step, and the values strictly increase |
| Ranges.EmitShape | src/gerador_links_advanced_auth.py:124-127 | a lazy loop yields a prefix of the range's results; with no error it yields all of them, with an error the next value is the one that failed |
| Writers.OutputFile.Write | src/gerador_links_advanced_auth.py:136 | `write(s)` appends s to the file's text |
| Writers.WriteBody | src/gerador_links_advanced_auth.py:140-144 | the streaming loop appends one chunk per record, then the closing framing only if the generator did not raise, and passes its error on |
| Writers.WriteHtmlHead | src/gerador_links_advanced_auth.py:136-139 | appends the HTML preamble and the title block |
| Writers.WriteHtml | src/gerador_links_advanced_auth.py:133-144 | the file gains HtmlText: head, one `<li>` per record, and the closing tags unless the generator raised |
| Writers.HtmlHrefClosed | src/gerador_links_advanced_auth.py:142 | the escaped URL cannot end the `href` attribute early: the first `"` after `href="` is the one the writer puts there |
| Writers.HtmlTitleEscaped | src/gerador_links_advanced_auth.py:139 | the head holds the title escaped, with no raw `<`, `>`, `"` or `'` in it |
| Writers.WriteCsv | src/gerador_links_advanced_auth.py:147-151 | the file gains CsvText: the header row, then one row per record |
| Writers.CsvRowsInOrder | src/gerador_links_advanced_auth.py:149-151 | the i-th record's row `[n, url, label]` comes after the header and the rows of the records before it |
| Writers.WriteNdjson | src/gerador_links_advanced_auth.py:154-156 | the file gains one JSON document and a newline per record |
| Writers.NdjsonOneLinePerRecord | src/gerador_links_advanced_auth.py:156 | when the documents have no newline, the text has exactly one line per record |
| Writers.WriteJsonArray | src/gerador_links_advanced_auth.py:159-167 | the file gains `[`, the documents separated by `,\n`, and `]` unless the generator raised |
| Writers.JsonItemsStep | src/gerador_links_advanced_auth.py:162-166 | the `first` flag puts a separator before every document but the first |
| Writers.JsonItemsSeparated | src/gerador_links_advanced_auth.py:162-166 | the array body is the first document, then `,\n` plus a document for each further record |
| Writers.JsonSeparatorCount | src/gerador_links_advanced_auth.py:162-166 | k one-line documents are joined by exactly k - 1 newlines |
| Writers.JsonArrayEmpty | src/gerador_links_advanced_auth.py:159-167 | an empty run writes `[\n\n]\n` |
| Writers.WriteTxt | src/gerador_links_advanced_auth.py:170-172 | the file gains `label -> url` and a newline per record |
| Writers.TxtOneLinePerRecord | src/gerador_links_advanced_auth.py:171-172 | with newline-free labels and URLs, one line per record, the i-th record's line in the i-th place |
| Writers.RouteWriter | src/gerador_links_advanced_auth.py:175-186 | an unknown name fails with an error naming the name as given |
| Writers.RouteWriterIff | src/gerador_links_advanced_auth.py:183-186 | a name is accepted exactly when, lowered, it is one of the five format names, and it then picks that format |
| Writers.RouteWriterRoundTrip | src/gerador_links_advanced_auth.py:176-182 | each format's own name picks that format |
| Writers.RouteWriterIgnoresCase | src/gerador_links_advanced_auth.py:183 | names that lower alike give the same answer |
| Writers.RouteWriterUpperCase | src/gerador_links_advanced_auth.py:183-185 | `JSON` and `Html` are accepted, and `xml` is refused naming `xml` |
| Writers.RunWriter | src/gerador_links_advanced_auth.py:175-186 | running the picked writer appends that format's WriterText and passes on the generator's error |
| Writers.RejectedRunWritesOpeningOnly | src/gerador_links_advanced_auth.py:96-122 | when the generator rejects its arguments, the writer leaves only its opening framing and reports that error |
| Chunked.ChunksInOrder | src/gerador_links_advanced_auth.py:140-143 | the i-th record's chunk sits between the chunks of the records before it and after it |
| Chunked.ChunkLines | src/gerador_links_advanced_auth.py:155-156 | one line per element gives exactly as many newlines as elements |
| Text.IntToStringRoundTrip | src/gerador_links_advanced_auth.py:75 | `str(n)` reads back as n |
| Text.FormatInt | src/gerador_links_advanced_auth.py:73 | `f"{n:0{pad}d}"`: the width is the larger of pad and the numeral's; zero-filled it reads back as n and is all digits, after a `-` exactly when n is negative; space-filled it is spaces then the numeral |
| Text.ZeroFillValue | src/gerador_links_advanced_auth.py:73 | zeros inserted after the sign do not change the value |
| Text.Strip | src/gerador_links_advanced_auth.py:81 | the result has no surrounding whitespace and is a slice of the input |
| Text.HtmlEscapeHasNoSpecials | src/gerador_links_advanced_auth.py:127 | `html.escape` output holds no raw `<`, `>`, `"` or `'` (a `&` is still there, as the start of an entity) |
| Text.HtmlEscapeRoundTrip | src/gerador_links_advanced_auth.py:127 | unescaping the escaped label gives back the label |

## Left out

- The command-line program and the Flask endpoint that call this module, and the opening of files: they are not part of this model.
- Logging is left out. It does not affect what is generated.
- `MAX_RANGE` is read from the environment, and an unparsable value counts as unset. The model takes the resulting `Option<int>` as the parameter `maxRange`.
- `urlparse` is reduced to its scheme test, `HasScheme`: a first `:` after a letter followed by letters, digits, `+`, `-` or `.`. Other URL parsing is not modelled.
- `json.dumps` and `csv.writer.writerow` are parameters (`dumps`, `row`). The model fixes the framing around them and their order, not their output.
- Formatter.ApplySpec only computes `[0][width][d]` specs on integers. Any other spec is UnsupportedSpec, and safe_format reports it as NotModelled instead of computing Python's result.
- Writers.RouteWriter: `str.lower()` is modelled as ASCII lowering. Non-ASCII names whose Unicode lowering is a format name are not covered.
- Links.SafeFormat: `pad and pad > 0` is modelled as `pad > 0`, which is the same for integers.
- `UnsafeTemplateError` and the `ValueError`s are constructors of `Links.Error`. Their message text is not modelled.
- Links.ValidateTemplateAllowedFields, Links.SafeFormat: these implement the corrected validator, which also checks the fields nested in a format spec. On a template whose nested field reaches an attribute or item, such as `{n:{n.real}}`, they reject with UnsafeTemplate where the source accepts and formats. Every member built on them inherits this: Links.BuildUrl, Generator.ArgumentFailure, Generator.CheckArguments, Generator.GenerateLinks and the writers' texts. The validator as written is Links.AsWrittenRejection (see "## Findings").
- Links.HasScheme follows `urlsplit` without the input cleaning added in Python 3.11.4 and 3.12. Leading C0 control characters and spaces are not stripped, and tab, CR and LF are not removed, before the scheme is looked for. So `build_url_from_template(" http://x/{n}", 5, 0)` gets a second `http://` in the model, where newer Pythons give `http://x/5`.
- Writers.RunWriter: the HTML writer runs with its default title `Links`, as a call `writer(items, f)` does. A caller passing a title is covered by Writers.WriteHtml.

## Findings

| source | as written | input that shows it | evidently intended | confidence | as-written member | corrected member |
|---|---|---|---|---|---|---|
| src/gerador_links_advanced_auth.py:33-41 | the validator checks only the top-level field names that `Formatter.parse` yields, but `str.format` also evaluates the fields nested in a format spec (line 68) | `safe_format("{n:{n.real}}", 5)`: validation passes, then `n.real` is evaluated to build the spec | every field `str.format` will evaluate, nested ones included, is checked, so no attribute of n is ever reached | medium, not executed | Links.AsWrittenAcceptsNestedAttribute | Links.AcceptedNeverReachesAttributes |
