# ckanext-versioned-tiledmap core, modelled in Dafny

This project models the pure core of the CKAN tiled-map view extension.

- **`Select`, the SQL SELECT generator** (`lib/sqlgenerator.py`).
  - A builder record collects template expressions into six sections: from, distinct on, select, where, group by and order by.
  - Each expression carries its own context of identifier and value bindings.
  - `to_sql` renders the record as one SQL string.
  - Identifiers are double-quoted and values single-quoted, after a character allow-list filter (`_clean_string`).
  - Numbers are written unquoted.
  - A nested `Select` bound as a value is spliced in as a subquery.
- **The form validators** (`lib/validators.py`): the colour, `[0, 1]` range, datastore-field and view-id checks.
- **The template helpers** `mustache_wrapper` and `dwc_field_title` (`lib/helpers.py`).
- **The request helpers** `build_url` and the filter-string parsing of `extract_q_and_filters`.
  - `routes/_helpers.py` and `controllers/utils.py` define these identically.
  - One model serves both.
- **The settings logic of `MapViewSettings`**: `fields`, `is_enabled`, `get_style_params`, the style selection of `create_map_info` and the bounds default of `get_extent_info`.

## Modules

| module | file | contents |
|---|---|---|
| `Results` | results.dfy | `Option`, `Result` and `PyError` (the Python exceptions the core raises). `All` evaluates a sequence of results up to the first failure. |
| `Strings` | strings.dfy | `Join` and `Split` (`str.join`, `str.split`), and Python's `str(int)` with its parsing inverse. |
| `Sanitizer` | sanitizer.dfy | `_clean_string`. |
| `Template` | template.dfy | `str.format(**replacements)`, restricted to `{label}` fields and `{{`/`}}` escapes, and the `compact` whitespace collapse. |
| `SqlGenerator` | sqlgenerator.dfy | The `Select` record, the clause adders, context merging, replacement rendering, section rendering and `to_sql`. |
| `SqlGeneratorExamples` | sqlgenerator_examples.dfy | The exact SQL the repository's own test cases expect. |
| `Validators` | validators.dfy | The four validators, plus corrected versions of two of them (see Findings). |
| `Helpers` | helpers.dfy | `mustache_wrapper` and `dwc_field_title`. |
| `RequestHelpers` | request.dfy | `str.strip('/')`, `build_url`, the filter parsing and `extract_q_and_filters` after unquoting. |
| `MapSettings` | settings.dfy | Python values and their equality, `fields`, `is_enabled`, `get_style_params`, the style selection, and the extent default. |

### Modelling choices

- **The builder is an immutable datatype.** Each clause adder returns the extended builder.
  - Python mutates the builder and returns `self`.
  - The global context is merged into an item when the item is added, as in `_add_expr`.
- **Python exceptions are `Err` values.**
  - Rendering errors are a *set* of candidate exceptions. `_get_replacements` walks dictionaries, so when several bindings fail, which one raises first depends on dictionary order.
  - For a builder without nested subqueries, the set is always a single exception.
- **Every bound label is rendered, used or not**, exactly as `_get_replacements` does. An unused short tuple identifier or a failing nested `Select` therefore still raises.
- **Only `{label}` fields and `{{`/`}}` escapes are modelled.**
  - The scanner follows Python 2.7's format-string iterator: braces nest inside a field name, and an unmatched `{` or single `}` raises `ValueError`.
  - An empty or all-digit field name is positional. With keyword arguments only it raises `IndexError`; an unbound name raises `KeyError`.
- **Atoms are `Text`, `Int`, `Float` and `Bool`.**
  - A float is given by its Python `str()` text.
  - A bool is quoted like a string, because the Python code tests the exact type with `type(val) in [int, float]`.
- **Where the class docstring and the code differ, the code is followed.**
  - `_clean_string` also keeps `(`, `)`, `.` and `,`.
  - It keeps hyphens, so `DROP";--TABLE` cleans to `DROP--TABLE`, not `DROPTABLE`.
  - `compact` collapses every whitespace run to one space and does not trim.
- **The view and the configuration are maps from keys to Python values** (`MapSettings.PyValue`). Equality is Python's `==`: `True == 1`, and a list never equals a tuple.
- **Percent-decoding (`urllib.unquote`) is a function parameter** of `ExtractQAndFilters`.
- **`get_style_params` gives a `KeyError` for a missing configuration key even when the view sets the parameter.** The Python code builds the configured default eagerly, as the argument of `view.get`.
- **The style selection in `create_map_info` takes the outcome of `get_style_params` as a parameter** (`SelectStyles`). `CreateStyles` instantiates it with the real parameters.

## Model

| member | source | states |
|---|---|---|
| SqlGenerator.New | ckanext/tiledmap/lib/sqlgenerator.py:38-54 | A new builder has all six sections empty and keeps the given options and global identifier and value bindings. |
| SqlGenerator.Merge | ckanext/tiledmap/lib/sqlgenerator.py:155-165 | The item context binds the union of the global and local labels. A local binding wins over a global one of the same label; a global label with no local override keeps its value. This holds for identifiers and for values separately. |
| SqlGenerator.AddExpr | ckanext/tiledmap/lib/sqlgenerator.py:143-153 | Adding an expression appends exactly one item to the named section: the expression with the merged context. The options, the global context and the other five sections are unchanged. |
| SqlGenerator.SelectFrom | ckanext/tiledmap/lib/sqlgenerator.py:86-93 | `select_from` appends one item to the from section only. |
| SqlGenerator.DistinctOn | ckanext/tiledmap/lib/sqlgenerator.py:95-102 | `distinct_on` appends one item to the distinct-on section only. |
| SqlGenerator.SelectColumn | ckanext/tiledmap/lib/sqlgenerator.py:104-111 | `select` appends one item to the select section only. |
| SqlGenerator.Where | ckanext/tiledmap/lib/sqlgenerator.py:113-123 | `where` appends one item to the where section only. |
| SqlGenerator.OrderBy | ckanext/tiledmap/lib/sqlgenerator.py:125-132 | `order_by` appends one item to the order-by section only. |
| SqlGenerator.GroupBy | ckanext/tiledmap/lib/sqlgenerator.py:134-141 | `group_by` appends one item to the group-by section only. |
| SqlGenerator.AddExprRendering | ckanext/tiledmap/lib/sqlgenerator.py:143-153 | After an expression is added, its section renders as before followed by the new item, and the first failure wins. Every other section renders exactly as before. |
| SqlGenerator.QuoteTokens | ckanext/tiledmap/lib/sqlgenerator.py:175-185 | Cleaned text cannot break out of its quotes: splitting its quoted form on the quote character gives exactly the empty text, the cleaned text, and the empty text. |
| SqlGenerator.QualifiedTokens | ckanext/tiledmap/lib/sqlgenerator.py:175 | A qualified identifier splits on `"` into exactly its two cleaned parts around the dot. |
| SqlGenerator.IdentText | ckanext/tiledmap/lib/sqlgenerator.py:173-177 | A plain identifier renders so that splitting on `"` gives exactly the cleaned `str()` of its value between empty ends. For a tuple, the split gives its first two cleaned parts around a dot. A tuple with fewer than two parts raises `IndexError`. |
| SqlGenerator.ValueText | ckanext/tiledmap/lib/sqlgenerator.py:179-185 | An int renders unquoted as decimal text that parses back to the int. A float renders as its `str()` text. A string or bool renders so that splitting on `'` gives exactly its cleaned text between empty ends. A nested builder renders as its own `to_sql` result, and only a nested builder can fail. |
| SqlGenerator.ValueErrors | ckanext/tiledmap/lib/sqlgenerator.py:178-185 | The value errors are empty exactly when every bound value renders. A context without nested builders has none. |
| SqlGenerator.Replacements | ckanext/tiledmap/lib/sqlgenerator.py:167-187 | Succeeds iff every identifier and every value renders. The replacement keys are all bound labels. A label bound as a value takes the value's rendering, even when it is also an identifier; otherwise it takes the identifier's. Without nested builders the only failure is `IndexError`. |
| SqlGenerator.RenderItem | ckanext/tiledmap/lib/sqlgenerator.py:195-200 | Rendering an item fails with at least one exception, and never with `MissingSection` when the item binds no nested builder. |
| SqlGenerator.RenderEach | ckanext/tiledmap/lib/sqlgenerator.py:196-200 | A section's items are rendered one by one, in order, each on its own. |
| SqlGenerator.RenderSingle | ckanext/tiledmap/lib/sqlgenerator.py:195-202 | A one-item section renders to that item's text alone, or fails with its error. |
| SqlGenerator.RenderSectionAppend | ckanext/tiledmap/lib/sqlgenerator.py:195-202 | Appending an item to a section renders the old items, then the new one, and the first failure wins. |
| SqlGenerator.RenderLiteral | ckanext/tiledmap/lib/sqlgenerator.py:197-200 | A template without braces renders verbatim, or compacted under `compact`, whatever its bindings are, provided they render. |
| SqlGenerator.RenderField | ckanext/tiledmap/lib/sqlgenerator.py:200 | Without `compact`, a template with one bound named placeholder renders as the text around it with the placeholder's replacement in its place. |
| SqlGenerator.RenderCompactField | ckanext/tiledmap/lib/sqlgenerator.py:197-200 | Under `compact`, only the literal text around a placeholder is compacted. The substituted identifier or value text is put in unaltered. |
| SqlGenerator.RenderFields | ckanext/tiledmap/lib/sqlgenerator.py:196-200 | Without `compact`, a template of any number of bound named placeholders between brace-free texts renders as those texts with each placeholder's replacement in its place, in order. |
| SqlGenerator.RenderCompactFields | ckanext/tiledmap/lib/sqlgenerator.py:196-200 | Under `compact`, for any number of placeholders named without whitespace, each literal text is compacted on its own and every replacement is put in unchanged. |
| SqlGenerator.RenderUnbound | ckanext/tiledmap/lib/sqlgenerator.py:200 | Without `compact`, a placeholder whose label is not bound raises `KeyError` for that label; a positional one raises `IndexError`. |
| SqlGenerator.Clauses | ckanext/tiledmap/lib/sqlgenerator.py:69-80 | The clauses are SELECT (with DISTINCT ON only when there are distinct items) and FROM, always. Then come WHERE, GROUP BY and ORDER BY, in that order, each exactly when its section is non-empty. |
| SqlGenerator.RenderSections | ckanext/tiledmap/lib/sqlgenerator.py:71-80 | Sections are rendered in the order distinct on, select, from, where, group by, order by. |
| SqlGenerator.ToSql | ckanext/tiledmap/lib/sqlgenerator.py:56-84 | An empty from section raises `MissingSection('from')`, checked before the select section. A non-empty from section with an empty select section raises `MissingSection('select')`. Every failure carries an exception. |
| SqlGenerator.ToSqlLayout | ckanext/tiledmap/lib/sqlgenerator.py:68-84 | Unfolding lemma: when both required sections are present and every section renders, `to_sql` is `Join` of the clauses built from the rendered sections. The whole-query lemmas of `SqlGeneratorQueries` use it to pin the exact SQL. |
| SqlGenerator.RenderNoNewline | ckanext/tiledmap/lib/sqlgenerator.py:196-200 | An item renders without a line break when its replacements have none and either its template has none or `compact` is set. |
| SqlGenerator.SectionNoNewline | ckanext/tiledmap/lib/sqlgenerator.py:195-202 | The same for a whole section, which gives the newline-free hypothesis of `NewlineLines`. |
| SqlGenerator.NewlineLines | ckanext/tiledmap/lib/sqlgenerator.py:81-82 | Under `nl`, with section texts free of newlines, splitting the SQL at its newlines gives back exactly the clauses: one line per clause. |
| SqlGenerator.FailingSection | ckanext/tiledmap/lib/sqlgenerator.py:71-80 | When both required sections are present and rendering fails, the error is that of the first failing section in rendering order. |
| SqlGenerator.FlatMissingSection | ckanext/tiledmap/lib/sqlgenerator.py:62-66 | For a builder without nested subqueries: `MissingSection('from')` is raised iff the from section is empty, and `MissingSection('select')` iff from is non-empty and select is empty. Any other failure is never `MissingSection`. |
| SqlGeneratorExamples.BaseBuilder | ckanext/tiledmap/tests/test_sqlgenerator.py:24-28 | `select_from('table')` then `select('field')` on a new builder gives one from item and one select item with empty contexts. |
| SqlGeneratorExamples.BaseQuery | ckanext/tiledmap/tests/test_sqlgenerator.py:24-29 | That builder renders as `SELECT field FROM table`. |
| SqlGeneratorExamples.TwoSections | ckanext/tiledmap/lib/sqlgenerator.py:69-84 | A builder with one select item and one from item, and nothing else, renders as `SELECT column`, the separator, and `FROM table`. |
| SqlGeneratorExamples.MissingFrom | ckanext/tiledmap/tests/test_sqlgenerator.py:13-22 | A new builder, and one with only a select item, raise `MissingSection('from')`. |
| SqlGeneratorExamples.MissingSelect | ckanext/tiledmap/lib/sqlgenerator.py:63-66 | A builder with only a from item raises `MissingSection('select')`. |
| SqlGeneratorExamples.InnerQuery | ckanext/tiledmap/tests/test_sqlgenerator.py:162-164 | The inner query of the subquery case renders as `SELECT f1 FROM t1`. |
| SqlGeneratorExamples.SubqueryItem | ckanext/tiledmap/lib/sqlgenerator.py:182-183 | A nested builder bound as a value is spliced into the template as its SQL, unquoted and uncleaned. |
| SqlGeneratorExamples.NestedQuery | ckanext/tiledmap/tests/test_sqlgenerator.py:160-168 | The subquery case renders as `SELECT * FROM (SELECT f1 FROM t1) AS sub_query`. |
| SqlGeneratorExamples.QuotedText | ckanext/tiledmap/lib/sqlgenerator.py:175-185 | Clean text is single-quoted as a value and double-quoted as an identifier. |
| SqlGeneratorExamples.IntValue | ckanext/tiledmap/tests/test_sqlgenerator.py:128-136 | `f2 = {val2}` with the int 12 renders as `f2 = 12`. |
| SqlGeneratorExamples.FloatValue | ckanext/tiledmap/tests/test_sqlgenerator.py:128-136 | `f3 = {val3}` with the float 12.1 renders as `f3 = 12.1`. |
| SqlGeneratorExamples.TextValue | ckanext/tiledmap/tests/test_sqlgenerator.py:128-136 | `f1 = {val1}` with the string `12` renders as `f1 = '12'`. |
| SqlGeneratorExamples.BoolValue | ckanext/tiledmap/lib/sqlgenerator.py:180-185 | `True` is quoted like a string, as `'True'`, because the type test is exact. |
| SqlGeneratorExamples.TupleIdentifier | ckanext/tiledmap/tests/test_sqlgenerator.py:105-119 | `{field}` bound to the tuple `('t1', 'f1')` renders as `"t1"."f1"`. |
| SqlGeneratorExamples.ShortTuple | ckanext/tiledmap/lib/sqlgenerator.py:175 | A one-part tuple identifier raises `IndexError`. |
| SqlGeneratorExamples.IdentifierCast | ckanext/tiledmap/tests/test_sqlgenerator.py:121-126 | The int 12 bound as an identifier renders as `"12"`. |
| SqlGeneratorExamples.UnboundLabel | ckanext/tiledmap/lib/sqlgenerator.py:200 | `{field}` with nothing bound raises `KeyError('field')`. |
| SqlGeneratorExamples.CleanInjection | ckanext/tiledmap/lib/sqlgenerator.py:213-218 | `DROP";--TABLE` cleans to `DROP--TABLE`: the quote and the semicolon go, and the hyphens stay. |
| SqlGeneratorExamples.CleanKept | ckanext/tiledmap/lib/sqlgenerator.py:215-216 | Uppercase letters and hyphens pass the filter unchanged, so `--` survives cleaning. |
| SqlGeneratorExamples.CompactTemplate | ckanext/tiledmap/lib/sqlgenerator.py:198-199 | `n = 1 \n  AND   n = 2` compacts to `n = 1 AND n = 2`. |
| SqlGeneratorExamples.CompactItem | ckanext/tiledmap/tests/test_sqlgenerator.py:181-193 | With `compact` that where expression renders collapsed; without it, verbatim. |
| SqlGeneratorQueries.FiveClauses | ckanext/tiledmap/lib/sqlgenerator.py:68-84 | With every section filled and rendered, the SQL is the SELECT, FROM, WHERE, GROUP BY and ORDER BY clauses, in that order, joined by the separator. |
| SqlGeneratorQueries.AllSectionsSpaced | ckanext/tiledmap/tests/test_sqlgenerator.py:31-40 | One expression in every section renders as `SELECT DISTINCT ON (another_field) field FROM table WHERE (number = 1) GROUP BY group ORDER BY way ASC`. |
| SqlGeneratorQueries.AllSectionsNewline | ckanext/tiledmap/tests/test_sqlgenerator.py:170-179 | The same builder with `nl` gives the same five clauses, one per line. |
| SqlGeneratorQueries.AllSectionsMultipleQuery | ckanext/tiledmap/tests/test_sqlgenerator.py:42-58 | Two expressions in every section: the items of a section are joined by `, `, and the WHERE conditions by `) AND (` inside one pair of outer parentheses. |
| SqlGeneratorQueries.LocalBuilder | ckanext/tiledmap/lib/sqlgenerator.py:151-165 | An item added without bindings gets the builder's context; an item added with a local `field` gets the builder's `table` and the local `field`. |
| SqlGeneratorQueries.LocalIdentifierQuery | ckanext/tiledmap/tests/test_sqlgenerator.py:80-94 | In every section the first item quotes the builder's `field_name` and the second the overriding `another_field`; the table is the builder's `table_name`. |
| Sanitizer.Clean | ckanext/tiledmap/lib/sqlgenerator.py:204-219 | The result holds only ASCII letters, digits, space, `-`, `_`, `(`, `)`, `.` and `,`, and is an order-preserving subsequence of the input. |
| Sanitizer.CleanCounts | ckanext/tiledmap/lib/sqlgenerator.py:213-218 | Every allowed character occurs in the result exactly as often as in the input, and no other character occurs at all. |
| Sanitizer.CleanUnique | ckanext/tiledmap/lib/sqlgenerator.py:213-218 | The cleaned text is the only clean subsequence of the input that keeps every allowed character as often as the input has it. |
| Sanitizer.CleanIdentity | ckanext/tiledmap/lib/sqlgenerator.py:213-218 | Clean text is left unchanged. |
| Sanitizer.CleanIdempotent | ckanext/tiledmap/lib/sqlgenerator.py:204-219 | Cleaning twice is the same as cleaning once. |
| Sanitizer.CleanConcat | ckanext/tiledmap/lib/sqlgenerator.py:214-218 | Cleaning works character by character: the cleaned concatenation is the concatenation of the cleaned parts. |
| Sanitizer.CleanDropsAll | ckanext/tiledmap/lib/sqlgenerator.py:215-217 | Text made only of disallowed characters cleans to the empty text. |
| Results.All | ckanext/tiledmap/lib/sqlgenerator.py:196-200 | A sequence of results succeeds iff every one succeeds, and then gives their values in order. Otherwise it gives the error of the first failure. |
| Strings.IntToString | ckanext/tiledmap/lib/sqlgenerator.py:180-181 | `str()` of an int is decimal text with a leading minus exactly for negative numbers. |
| Strings.IntToStringRoundTrip | ckanext/tiledmap/lib/sqlgenerator.py:180-181 | Parsing `str()` of an int gives the int back. |
| Strings.Split | ckanext/tiledmap/routes/_helpers.py:332 | `str.split` on one character always gives at least one piece, and no piece contains the separator. |
| Strings.JoinSplit | ckanext/tiledmap/routes/_helpers.py:332 | Joining the pieces of a split with the separator gives back the original text: splitting loses nothing. |
| Strings.SplitJoin | ckanext/tiledmap/routes/_helpers.py:315 | Splitting a join of separator-free pieces gives back the pieces. |
| Template.ScanUnscan | ckanext/tiledmap/lib/sqlgenerator.py:200 | A template that scans without a format error is exactly the text of its pieces, with braces re-escaped. |
| Template.UnscanScan | ckanext/tiledmap/lib/sqlgenerator.py:200 | Pieces with brace-free labels, written as template text, scan back to the same pieces with no error. |
| Template.Substitute | ckanext/tiledmap/lib/sqlgenerator.py:200 | Filling the pieces succeeds iff every field is bindable. Otherwise the error is that of the first field that is not, and every earlier field is bindable. |
| Template.Format | ckanext/tiledmap/lib/sqlgenerator.py:200 | Formatting succeeds iff the template scans without error and every field is bound by name. A `KeyError` names a field of the template that has no replacement. |
| Template.FormatLiteral | ckanext/tiledmap/lib/sqlgenerator.py:200 | A brace-free template formats to itself. |
| Template.FormatField | ckanext/tiledmap/lib/sqlgenerator.py:200 | A template with one bound named field formats to the surrounding text with the replacement in place of the field. |
| Template.FormatUnbound | ckanext/tiledmap/lib/sqlgenerator.py:200 | A template with one field that cannot be bound raises for that field: `KeyError` for a name, `IndexError` for a positional field. |
| Template.FormatFields | ckanext/tiledmap/lib/sqlgenerator.py:200 | A template of brace-free texts and bound named placeholders formats to the texts with each placeholder replaced, in order. |
| Template.CompactFill | ckanext/tiledmap/lib/sqlgenerator.py:198-199 | Compacting such a template compacts each literal text on its own and keeps every placeholder named without whitespace whole. |
| Template.FormatNoNewline | ckanext/tiledmap/lib/sqlgenerator.py:200 | A template without a line break, filled with replacements without one, formats to text without one. |
| Template.SubstitutePreserves | ckanext/tiledmap/lib/sqlgenerator.py:200 | If every literal character and every replacement character has a property, every character of the formatted text has it. |
| Template.Compact | ckanext/tiledmap/lib/sqlgenerator.py:198-199 | The result's only whitespace is single spaces, never two adjacent. It keeps the non-whitespace characters of the input in order and is no longer than the input. It starts or ends with a space exactly when the input starts or ends with whitespace: nothing is trimmed. |
| Template.CompactIdentity | ckanext/tiledmap/lib/sqlgenerator.py:199 | Text that is already compact is left unchanged. |
| Template.CompactIdempotent | ckanext/tiledmap/lib/sqlgenerator.py:199 | Compacting twice is the same as compacting once. |
| Template.CompactKeeps | ckanext/tiledmap/lib/sqlgenerator.py:199 | A non-whitespace character occurs in the compacted text iff it occurs in the input. |
| Template.CompactSplit | ckanext/tiledmap/lib/sqlgenerator.py:199 | Compaction of text split before a non-whitespace character is the compaction of each part. |
| Template.CompactFieldText | ckanext/tiledmap/lib/sqlgenerator.py:199 | A placeholder named without whitespace survives compaction whole, and only the text around it is compacted. |
| Template.CompactInterleave | ckanext/tiledmap/lib/sqlgenerator.py:199 | Words separated by arbitrary whitespace runs compact to the words joined by single spaces. |
| Validators.MatchesColourForms | ckanext/tiledmap/lib/validators.py:19 | The colour pattern accepts exactly an optional `#`, three or six hex digits of either case, and an optional final newline that Python's `$` lets through. |
| Validators.ColourValidator | ckanext/tiledmap/lib/validators.py:19-26 | A colour is accepted iff it matches the pattern. The result is the value with `#` prepended when it had none, and otherwise unchanged. A value that does not match raises `Invalid` with the colour message. |
| Validators.ColourValidatorForm | ckanext/tiledmap/lib/validators.py:19-23 | Each accepted form maps to `#`, its digits and its optional newline. |
| Validators.ColourFixpoint | ckanext/tiledmap/lib/validators.py:19-23 | Validating an accepted colour again returns it unchanged. |
| Validators.ColourAccepted | tests/test_validators.py:9-12 | `A5F` becomes `#A5F`, and `#AA55FF` stays as it is. |
| Validators.ColourRejected | tests/test_validators.py:20-27 | `#AG0` and `X` raise `Invalid`. |
| Validators.ColourNewline | ckanext/tiledmap/lib/validators.py:19-23 | `A5F` followed by a newline is accepted and comes back as `#A5F` plus the newline. |
| Validators.StrictColourValidator | ckanext/tiledmap/lib/validators.py:11-26 | Corrected colour validator. It accepts exactly an optional `#` with three or six hex digits and nothing after them. Where it accepts, it agrees with the Python validator. |
| Validators.StrictColourDiffers | ckanext/tiledmap/lib/validators.py:19 | The corrected validator accepts exactly what the Python validator accepts, minus the values that end in a newline. |
| Validators.StrictColourFixpoint | ckanext/tiledmap/lib/validators.py:19-23 | Validating a colour the corrected validator accepted gives it back unchanged. |
| Validators.Float01AsWritten | ckanext/tiledmap/lib/validators.py:37-43 | The range check as written: a parsed number passes iff it is NaN or a finite number in `[0, 1]`. Unparsable input and anything else raise `Invalid` with the range message. |
| Validators.NaNPasses | ckanext/tiledmap/lib/validators.py:41 | NaN passes the range check as written, because both comparisons with NaN are false. |
| Validators.Float01Validator | ckanext/tiledmap/lib/validators.py:29-43 | Corrected range check: a value passes iff it is a finite number in the closed interval `[0, 1]`, and it is returned as parsed. |
| Validators.Float01Agrees | ckanext/tiledmap/lib/validators.py:41-43 | The corrected check agrees with the written one on every input except NaN, which it rejects. |
| Validators.Passed | ckanext/tiledmap/lib/validators.py:54 | A single field is treated as a one-element list, and a list as itself. |
| Validators.Unknown | ckanext/tiledmap/lib/validators.py:56 | The invalid fields are exactly the passed fields that the resource lacks, and no more of them than were passed. |
| Validators.UnknownAppend | ckanext/tiledmap/lib/validators.py:56 | The invalid fields keep the order in which they were passed. |
| Validators.IsDatastoreField | ckanext/tiledmap/lib/validators.py:46-59 | The value comes back unchanged iff every passed field is a field of the resource. Otherwise `Invalid` lists the unknown fields, comma-separated in input order. |
| Validators.MixedFields | tests/test_validators.py:81-90 | `beans, goats, lemons, armpits` against `{beans, lemons}` raises `Invalid parameters: goats,armpits`. |
| Validators.IsViewId | ckanext/tiledmap/lib/validators.py:62-75 | A missing or empty value passes unchanged. Any other value passes unchanged iff it is one of the resource's view ids, and otherwise raises `Invalid`. |
| Validators.IsViewIdMembership | ckanext/tiledmap/lib/validators.py:73 | Only membership in the view-id list matters, not its order or repetitions. |
| Helpers.MustacheWrapper | ckanext/tiledmap/lib/helpers.py:8-9 | The tag is four characters longer than the name, opens with `{{`, closes with `}}` and holds the name between them. |
| Helpers.MustacheInjective | ckanext/tiledmap/lib/helpers.py:8-9 | Different names give different tags. |
| Helpers.Upper | ckanext/tiledmap/lib/helpers.py:19 | `upper()` maps a lowercase ASCII letter to its uppercase letter and leaves every other character unchanged. |
| Helpers.SpaceRunsLength | ckanext/tiledmap/lib/helpers.py:18 | The substitution adds exactly one character per maximal run of uppercase letters. |
| Helpers.SpaceRunsRoundTrip | ckanext/tiledmap/lib/helpers.py:18 | Removing the space before each uppercase run gives the field back, even when the field contains spaces of its own. |
| Helpers.SpacedRun | ckanext/tiledmap/lib/helpers.py:18 | A lowercase word followed by an uppercase run gets one space before the run. |
| Helpers.DwcFieldTitle | ckanext/tiledmap/lib/helpers.py:12-20 | An empty field raises `IndexError`. Otherwise the title is one character longer per uppercase run than the field, and its tail is the spaced field's tail. It starts with a space exactly when the field starts with an uppercase letter or a space; otherwise it starts with the field's first character upper-cased. |
| Helpers.OccurrenceId | tests/test_helpers.py:10 | `occurrenceID` becomes `Occurrence ID`. |
| Helpers.OtherCatalogNumbers | tests/test_helpers.py:9 | `otherCatalogNumbers` becomes `Other Catalog Numbers`. |
| RequestHelpers.Strip | ckanext/tiledmap/routes/_helpers.py:315 | The result is the part with slashes cut off both ends, and it has no slash at either end. |
| RequestHelpers.StripUnique | ckanext/tiledmap/routes/_helpers.py:315 | The stripped text is the only text obtained by cutting slashes off the ends that leaves no slash at either end. |
| RequestHelpers.StripIdempotent | ckanext/tiledmap/routes/_helpers.py:315 | Stripping twice is the same as stripping once. |
| RequestHelpers.BuildUrl | ckanext/tiledmap/routes/_helpers.py:308-315 | No parts give the empty URL; one part gives that part stripped. |
| RequestHelpers.BuildUrlSnoc | ckanext/tiledmap/controllers/utils.py:16-23 | Each further part adds exactly one `/` and that part with its edge slashes stripped. |
| RequestHelpers.BuildUrlSplit | ckanext/tiledmap/routes/_helpers.py:315 | When no stripped part contains a slash inside, splitting the URL at its slashes gives back the stripped parts. |
| RequestHelpers.ServerAndPath | ckanext/tiledmap/routes/_helpers.py:315 | A server with a trailing slash and a path with a leading slash meet at one slash. |
| RequestHelpers.TileUrl | ckanext/tiledmap/routes/_helpers.py:308-315 | `http://tiles/` and `/{z}/{x}/{y}.png` build `http://tiles/{z}/{x}/{y}.png`. |
| RequestHelpers.SplitFirst | ckanext/tiledmap/routes/_helpers.py:333-334 | A piece without `:` has no split. Otherwise the field, `:` and the value put back together give the piece, and the field holds no `:`: the split is at the first colon. |
| RequestHelpers.SplitFirstUnique | ckanext/tiledmap/controllers/utils.py:42 | A colon-free field, a colon and any value, even one with more colons, split back into that field and that value. |
| RequestHelpers.Append | ckanext/tiledmap/routes/_helpers.py:335 | The default-dict append adds the field's key and puts the value at the end of its list; every other field is unchanged. |
| RequestHelpers.AccumulateValues | ckanext/tiledmap/routes/_helpers.py:332-335 | Each field's list is its earlier list followed by the values of the pieces naming it, in input order. A field is a key iff it was one or some piece names it. |
| RequestHelpers.ParseFiltersValues | ckanext/tiledmap/controllers/utils.py:40-43 | A field's filter values are exactly the values of the pieces naming it, in order. A field is present iff some piece names it. |
| RequestHelpers.IgnoredPiece | ckanext/tiledmap/controllers/utils.py:41 | A piece without `:` contributes nothing. |
| RequestHelpers.RepeatedField | ckanext/tiledmap/controllers/utils.py:43 | A field named twice around a piece without a colon collects both values, in order. |
| RequestHelpers.FilterExample | ckanext/tiledmap/routes/_helpers.py:329-335 | `a:1\|b\|a:2:3` parses to `a` mapped to `1` and `2:3`. |
| RequestHelpers.ExtractQAndFilters | ckanext/tiledmap/routes/_helpers.py:318-337 | `q` is absent iff the parameter is missing, and otherwise is its unquoted text. A missing or empty filters parameter gives no filters; any other gives the parse of its unquoted text. |
| MapSettings.Title | ckanext/tiledmap/routes/_helpers.py:39-41 | The title is the view's `utf_grid_title`, and raises `KeyError` when the view has none. |
| MapSettings.ListOf | ckanext/tiledmap/routes/_helpers.py:45 | `list()` of a list or tuple gives its items, and of a string gives its characters as one-character strings. Anything else raises `TypeError`. |
| MapSettings.Fields | ckanext/tiledmap/routes/_helpers.py:43-48 | The fields are the view's field list in order, with the title appended only when no field equals it, so the title is present once more at most. A non-iterable field list raises before a missing title does. |
| MapSettings.FieldsFixpoint | ckanext/tiledmap/routes/_helpers.py:43-48 | Storing the computed fields back as the view's field list leaves the fields unchanged. |
| MapSettings.StringFields | ckanext/tiledmap/routes/_helpers.py:45 | A string field list is split into its characters: `ab` with title `a` gives `a`, `b`. |
| MapSettings.BoolTitle | ckanext/tiledmap/routes/_helpers.py:46 | The title `True` counts as present in the list `[1]`, because `True == 1`. |
| MapSettings.MissingTitle | ckanext/tiledmap/routes/_helpers.py:46 | Fields without a title raise `KeyError('utf_grid_title')`. |
| MapSettings.NotIterable | ckanext/tiledmap/routes/_helpers.py:45 | An int field list raises `TypeError`. |
| MapSettings.IsEnabledStyles | ckanext/tiledmap/routes/_helpers.py:74-81 | The view is enabled iff at least one of the plot, grid and heat map styles is switched on. |
| MapSettings.GetStyleParams | ckanext/tiledmap/routes/_helpers.py:129-145 | Succeeds iff every requested parameter has a configured default. The keys are exactly the requested names. Each value is the view's `{style}_{name}` when set, else the configured `versioned_tilemap.style.{style}.{name}`. A failure is the `KeyError` of the first name without a default. |
| MapSettings.ApplyStyle | ckanext/tiledmap/routes/_helpers.py:236-263 | A disabled style is removed and the chosen style is kept. An enabled style gets its parameters and becomes the map style; the grid and plot styles also get `has_grid` from `enable_utf_grid`. No other style changes. |
| MapSettings.SelectStyles | ckanext/tiledmap/routes/_helpers.py:236-263 | Succeeds iff every enabled style's parameters can be read, and keeps exactly the enabled styles. The heat map keeps `has_grid` false; the others take `enable_utf_grid`. The map style is plot, else grid, else heat map, as enabled. A failure is that of the first enabled style in heat, grid, plot order. |
| MapSettings.CreateStyles | ckanext/tiledmap/routes/_helpers.py:236-263 | With the real style parameters, it succeeds iff every enabled style has its configured defaults, and picks the preferred map style. |
| MapSettings.ChosenIffEnabled | ckanext/tiledmap/routes/_helpers.py:236-263 | When the style selection succeeds, a map style is chosen iff the view is enabled. |
| MapSettings.ExtentInfo | ckanext/tiledmap/routes/_helpers.py:171-172 | The total and geometry counts are read in that order, each raising `KeyError` when missing. The bounds are the extent's own when given, else `((83, -170), (-83, 170))`. |
| MapSettings.ExtentKeys | ckanext/tiledmap/routes/_helpers.py:171-172 | Only the two counts and the bounds are read: adding or removing any other entry of the extent leaves the result unchanged. |

## Left out

- I/O, the CKAN framework, routing, templates, authorisation and every action call are not part of this model: the datastore queries, `resource_view_list`, `datastore_query_extent`, `find_template` and `toolkit.render`. The datastore field set and the view-id list are parameters of the validators.
- `urllib.unquote` is not modelled: percent-decoding is the `unquote` parameter of `ExtractQAndFilters`.
- The rest of `create_map_info` and `get_base_map_info` (URLs, templates, icons, controls, `get_query_body` with its gzip, base64 and JSON) is not modelled. The styles' base `has_grid` and empty parameters are the constant `BaseStyles`.
- The full `str.format` mini-language (format specs, conversions, attribute and index access) is not modelled: only `{label}` fields and brace escapes are.
- Python 2 `long` values would be quoted by the exact type test. They are not modelled as a separate atom.
- Python 2 `str(float)` formatting and `float()` parsing are not modelled.
  - A float atom carries its `str()` text.
  - The range validator takes the outcome of `float()` as a parsed number, NaN, an infinity, or unparsable.
- Non-ASCII text is not modelled.
  - `str.upper()` of the title's first character is modelled on ASCII letters only.
  - The `unicode` conversions of `_clean_string` are not modelled: characters are Dafny `char`s.
- Aliasing is not modelled. A nested `Select` bound as a value is a value in the model, so later mutation of the Python object through another reference has no counterpart.
- `to_sql` reads state only. In the model, repeated calls give identical output by construction, so no lemma states it.
- `MapSettings.ListOf`: `list()` of a dict (its keys) and of other iterables is modelled as `TypeError`. Only lists, tuples and strings are field lists here.
- `SqlGenerator.RenderItem`: for an item that binds nested builders, the contract states only that some exception is raised. Which one depends on Python dictionary order, and the model returns the set of candidates.
- `MapViewSettings` in `controllers/map.py` is a verbatim copy of the routes version and is modelled once.

## Findings

| source | as written | input that shows it | evidently intended | confidence | as-written member | corrected member |
|---|---|---|---|---|---|---|
| ckanext/tiledmap/lib/validators.py:41 | The range check `value < 0 or value > 1` is false for NaN, so NaN is returned as valid. | `float_01_validator('nan', ...)` | Only numbers in the closed interval `[0, 1]` pass, as the docstring and error message say. | medium; not executed | Validators.NaNPasses | Validators.Float01Validator |
| ckanext/tiledmap/lib/validators.py:19 | Without the MULTILINE flag, `$` also matches just before a final newline, so a colour followed by a newline is accepted and the newline is kept in the result. | `colour_validator('A5F\n', ...)` returns `'#A5F\n'` | Only an optional `#` and three or six hex digits are accepted. | medium; not executed | Validators.ColourNewline | Validators.StrictColourValidator |
