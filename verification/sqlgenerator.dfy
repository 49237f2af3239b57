/** The SQL SELECT generator (`ckanext.tiledmap.lib.sqlgenerator`): a
    builder collecting template expressions into six sections, and its
    rendering to one SQL string in which every substituted identifier and
    value has passed the allow-list cleaner. */
module SqlGenerator {
  import opened Results
  import Strings
  import Sanitizer
  import Template

  /** A Python value `_clean_string` or `str()` can be applied to. `Float`
      carries the text Python's `str()` gives for the float. */
  datatype Atom = Text(s: string) | Int(i: int) | Float(repr: string) | Bool(b: bool)

  /** An identifier binding: a bare name, or a tuple whose first two parts
      are the qualifier and the name. */
  datatype Identifier = Name(atom: Atom) | Tuple(parts: seq<Atom>)

  /** A value binding: a scalar, or another builder spliced in as a
      subquery. */
  datatype Value = Scalar(atom: Atom) | Subquery(query: Select)

  /** A pair of identifier and value dictionaries, keyed by label. */
  datatype Context = Context(identifiers: map<string, Identifier>, values: map<string, Value>)

  /** One expression of a section, with the context it is rendered in. */
  datatype Item = Item(expr: string, context: Context)

  /** The `nl` and `compact` options; both default to false. */
  datatype Options = Options(nl: bool, compact: bool)

  datatype Section =
    | FromSection | DistinctOnSection | SelectSection | WhereSection | OrderBySection | GroupBySection

  /** The builder: its options, the global context given at construction,
      and the items of each section in the order they were added. */
  datatype Select = Select(
    options: Options,
    global: Context,
    fromItems: seq<Item>,
    distinctOnItems: seq<Item>,
    selectItems: seq<Item>,
    whereItems: seq<Item>,
    orderByItems: seq<Item>,
    groupByItems: seq<Item>)
  {
    function Items(section: Section): seq<Item> {
      match section
      case FromSection => fromItems
      case DistinctOnSection => distinctOnItems
      case SelectSection => selectItems
      case WhereSection => whereItems
      case OrderBySection => orderByItems
      case GroupBySection => groupByItems
    }
  }

  const DefaultOptions := Options(false, false)

  /** `Select(options, identifiers, values)`: no section holds anything yet. */
  function New(options: Options, identifiers: map<string, Identifier>, values: map<string, Value>): (q: Select)
    ensures forall section :: q.Items(section) == []
    ensures q.options == options && q.global == Context(identifiers, values)
  {
    Select(options, Context(identifiers, values), [], [], [], [], [], [])
  }

  // ---------------------------------------------------------------------
  // Adding expressions

  /** `_get_context`: the global dictionaries overlaid by the local ones,
      label by label. */
  function Merge(global: Context, local: Context): (r: Context)
    ensures r.identifiers.Keys == global.identifiers.Keys + local.identifiers.Keys
    ensures r.values.Keys == global.values.Keys + local.values.Keys
    ensures forall k :: k in local.identifiers ==> r.identifiers[k] == local.identifiers[k]
    ensures forall k :: k in global.identifiers && k !in local.identifiers ==> r.identifiers[k] == global.identifiers[k]
    ensures forall k :: k in local.values ==> r.values[k] == local.values[k]
    ensures forall k :: k in global.values && k !in local.values ==> r.values[k] == global.values[k]
  {
    Context(global.identifiers + local.identifiers, global.values + local.values)
  }

  /** `r` is `q` with `item` appended to `section` and nothing else changed. */
  predicate Extends(q: Select, r: Select, section: Section, item: Item) {
    && r.options == q.options
    && r.global == q.global
    && r.Items(section) == q.Items(section) + [item]
    && forall other :: other != section ==> r.Items(other) == q.Items(other)
  }

  /** `_add_expr`: the global context is merged into the item when it is
      added. */
  function AddExpr(q: Select, section: Section, expr: string,
                   identifiers: map<string, Identifier>, values: map<string, Value>): (r: Select)
    ensures Extends(q, r, section, Item(expr, Merge(q.global, Context(identifiers, values))))
  {
    var item := Item(expr, Merge(q.global, Context(identifiers, values)));
    match section
    case FromSection => q.(fromItems := q.fromItems + [item])
    case DistinctOnSection => q.(distinctOnItems := q.distinctOnItems + [item])
    case SelectSection => q.(selectItems := q.selectItems + [item])
    case WhereSection => q.(whereItems := q.whereItems + [item])
    case OrderBySection => q.(orderByItems := q.orderByItems + [item])
    case GroupBySection => q.(groupByItems := q.groupByItems + [item])
  }

  /** `select_from`. */
  function SelectFrom(q: Select, expr: string, identifiers: map<string, Identifier>, values: map<string, Value>): (r: Select)
    ensures Extends(q, r, FromSection, Item(expr, Merge(q.global, Context(identifiers, values))))
  {
    AddExpr(q, FromSection, expr, identifiers, values)
  }

  /** `distinct_on`. */
  function DistinctOn(q: Select, expr: string, identifiers: map<string, Identifier>, values: map<string, Value>): (r: Select)
    ensures Extends(q, r, DistinctOnSection, Item(expr, Merge(q.global, Context(identifiers, values))))
  {
    AddExpr(q, DistinctOnSection, expr, identifiers, values)
  }

  /** `select`: adds a field or expression to the select list. */
  function SelectColumn(q: Select, expr: string, identifiers: map<string, Identifier>, values: map<string, Value>): (r: Select)
    ensures Extends(q, r, SelectSection, Item(expr, Merge(q.global, Context(identifiers, values))))
  {
    AddExpr(q, SelectSection, expr, identifiers, values)
  }

  /** `where`. */
  function Where(q: Select, expr: string, identifiers: map<string, Identifier>, values: map<string, Value>): (r: Select)
    ensures Extends(q, r, WhereSection, Item(expr, Merge(q.global, Context(identifiers, values))))
  {
    AddExpr(q, WhereSection, expr, identifiers, values)
  }

  /** `order_by`. */
  function OrderBy(q: Select, expr: string, identifiers: map<string, Identifier>, values: map<string, Value>): (r: Select)
    ensures Extends(q, r, OrderBySection, Item(expr, Merge(q.global, Context(identifiers, values))))
  {
    AddExpr(q, OrderBySection, expr, identifiers, values)
  }

  /** `group_by`. */
  function GroupBy(q: Select, expr: string, identifiers: map<string, Identifier>, values: map<string, Value>): (r: Select)
    ensures Extends(q, r, GroupBySection, Item(expr, Merge(q.global, Context(identifiers, values))))
  {
    AddExpr(q, GroupBySection, expr, identifiers, values)
  }

  // ---------------------------------------------------------------------
  // Rendering identifiers and values

  /** Python's `str()` of an atom. */
  function Str(a: Atom): string {
    match a
    case Text(s) => s
    case Int(i) => Strings.IntToString(i)
    case Float(repr) => repr
    case Bool(b) => if b then "True" else "False"
  }

  function Quote(q: char, s: string): string {
    [q] + s + [q]
  }

  /** Cleaned text holds no quote character, so splitting its quoted form
      on the quote recovers it. */
  lemma QuoteTokens(q: char, x: string)
    requires q == '"' || q == '\''
    requires Sanitizer.IsClean(x)
    ensures Strings.Split(Quote(q, x), q) == ["", x, ""]
  {
    assert q !in x;
    Strings.JoinThree([q], "", x, "");
    assert "" + [q] + x + [q] + "" == Quote(q, x);
    Strings.SplitJoin(["", x, ""], q);
  }

  lemma QualifiedTokens(x: string, y: string)
    requires Sanitizer.IsClean(x) && Sanitizer.IsClean(y)
    ensures Strings.Split(Quote('"', x) + "." + Quote('"', y), '"') == ["", x, ".", y, ""]
  {
    assert '"' !in x;
    assert '"' !in y;
    Strings.JoinFive("\"", "", x, ".", y, "");
    assert "" + "\"" + x + "\"" + "." + "\"" + y + "\"" + "" == Quote('"', x) + "." + Quote('"', y);
    Strings.SplitJoin(["", x, ".", y, ""], '"');
  }

  /** The identifier half of `_get_replacements`. A tuple with fewer than
      two parts raises `IndexError`. The double quotes of the result
      delimit exactly the cleaned parts: a bound identifier cannot close
      its quotes early. */
  function IdentText(id: Identifier): (r: Result<string, PyError>)
    ensures r.Ok? <==> id.Name? || |id.parts| >= 2
    ensures r.Err? ==> r.error == IndexError
    ensures r.Ok? && id.Name? ==>
      Strings.Split(r.value, '"') == ["", Sanitizer.Clean(Str(id.atom)), ""]
    ensures r.Ok? && id.Tuple? ==>
      Strings.Split(r.value, '"') == ["", Sanitizer.Clean(Str(id.parts[0])), ".", Sanitizer.Clean(Str(id.parts[1])), ""]
  {
    match id
    case Name(a) =>
      var x := Sanitizer.Clean(Str(a));
      QuoteTokens('"', x);
      Ok(Quote('"', x))
    case Tuple(parts) =>
      if |parts| < 2 then Err(IndexError)
      else
        var x := Sanitizer.Clean(Str(parts[0]));
        var y := Sanitizer.Clean(Str(parts[1]));
        QualifiedTokens(x, y);
        Ok(Quote('"', x) + "." + Quote('"', y))
  }

  /** The value half of `_get_replacements`. Exactly `int` and `float`
      render unquoted (a `bool` is quoted); a nested builder renders as its
      own SQL, neither cleaned nor quoted; anything else renders as a
      single-quoted cleaned string whose quotes delimit exactly the
      cleaned text. */
  function ValueText(v: Value): (r: Result<string, set<PyError>>)
    ensures r.Err? ==> v.Subquery? && r.error != {}
    ensures v.Scalar? && v.atom.Int? ==> r.Ok? && Strings.IsDecimal(r.value) && Strings.ParseInt(r.value) == v.atom.i
    ensures v.Scalar? && v.atom.Float? ==> r == Ok(v.atom.repr)
    ensures v.Scalar? && (v.atom.Text? || v.atom.Bool?) ==>
      r.Ok? && Strings.Split(r.value, '\'') == ["", Sanitizer.Clean(Str(v.atom)), ""]
    ensures v.Subquery? ==> r == ToSql(v.query)
    decreases v, 0
  {
    match v
    case Subquery(q) => ToSql(q)
    case Scalar(a) =>
      match a
      case Int(i) =>
        Strings.IntToStringRoundTrip(i);
        Ok(Strings.IntToString(i))
      case Float(repr) => Ok(repr)
      case _ =>
        var x := Sanitizer.Clean(Str(a));
        QuoteTokens('\'', x);
        Ok(Quote('\'', x))
  }

  predicate HasSubquery(ctx: Context) {
    exists k :: k in ctx.values && ctx.values[k].Subquery?
  }

  predicate IdentifiersOk(ctx: Context) {
    forall k :: k in ctx.identifiers ==> IdentText(ctx.identifiers[k]).Ok?
  }

  /** The exceptions of the value bindings that fail to render: each is
      the one Python raises under some dictionary order. */
  function ValueErrors(ctx: Context): (es: set<PyError>)
    ensures es == {} <==> forall k :: k in ctx.values ==> ValueText(ctx.values[k]).Ok?
    ensures !HasSubquery(ctx) ==> es == {}
    decreases ctx, 1
  {
    var vals := ctx.values;
    var es := set k, e | k in vals && ValueText(vals[k]).Err? && e in ValueText(vals[k]).error :: e;
    assert es == {} ==> forall k :: k in vals ==> ValueText(vals[k]).Ok? by {
      if exists k :: k in vals && ValueText(vals[k]).Err? {
        var k :| k in vals && ValueText(vals[k]).Err?;
        var e :| e in ValueText(vals[k]).error;
        assert e in es;
      }
    }
    es
  }

  /** `_get_replacements`: every label of the context is rendered, used by
      the template or not. Identifiers are rendered first, so a short
      tuple raises `IndexError`; otherwise the exceptions of failing
      subqueries are the candidates, and which one Python raises depends
      on dictionary order. When a label is both an identifier and a value,
      the value rendering is used. */
  function Replacements(ctx: Context): (r: Result<map<string, string>, set<PyError>>)
    ensures r.Ok? <==> IdentifiersOk(ctx) && forall k :: k in ctx.values ==> ValueText(ctx.values[k]).Ok?
    ensures r.Ok? ==> r.value.Keys == ctx.identifiers.Keys + ctx.values.Keys
    ensures r.Ok? ==> forall k :: k in ctx.values ==> r.value[k] == ValueText(ctx.values[k]).value
    ensures r.Ok? ==> forall k :: k in ctx.identifiers && k !in ctx.values ==>
      r.value[k] == IdentText(ctx.identifiers[k]).value
    ensures r.Err? ==> r.error != {}
    ensures r.Err? && !HasSubquery(ctx) ==> r.error == {IndexError}
    decreases ctx, 2
  {
    if !IdentifiersOk(ctx) then Err({IndexError})
    else
      var errors := ValueErrors(ctx);
      if errors != {} then Err(errors)
      else
        var ids := ctx.identifiers;
        var vals := ctx.values;
        Ok(map k | k in ids.Keys + vals.Keys ::
             if k in vals then ValueText(vals[k]).value else IdentText(ids[k]).value)
  }

  // ---------------------------------------------------------------------
  // Rendering sections and the query

  /** One item of `_sql_section`: the template (compacted when the option
      is set) formatted with the item's replacements. */
  function RenderItem(options: Options, item: Item): (r: Result<string, set<PyError>>)
    ensures r.Err? ==> r.error != {}
    ensures r.Err? && !HasSubquery(item.context) ==> forall e :: e in r.error ==> !e.MissingSection?
    decreases item, 3
  {
    var template := if options.compact then Template.Compact(item.expr) else item.expr;
    var repl :- Replacements(item.context);
    match Template.Format(template, repl)
    case Ok(s) => Ok(s)
    case Err(e) =>
      assert !e.MissingSection? by {
        FormatNeverMissingSection(template, repl);
      }
      Err({e})
  }

  lemma FormatNeverMissingSection(t: string, repl: map<string, string>)
    ensures Template.Format(t, repl).Err? ==> !Template.Format(t, repl).error.MissingSection?
  {
    var sc := Template.ScanTemplate(t);
    var s := Template.Substitute(sc.pieces, repl);
    if s.Err? {
      var i :| 0 <= i < |sc.pieces| && sc.pieces[i].Field? && s.error == Template.FieldError(sc.pieces[i].name);
    }
  }

  /** The rendering of every item of a section, in order. */
  function RenderEach(options: Options, items: seq<Item>): (rs: seq<Result<string, set<PyError>>>)
    ensures |rs| == |items|
    ensures forall k :: 0 <= k < |items| ==> rs[k] == RenderItem(options, items[k])
    decreases items, 4
  {
    seq(|items|, k requires 0 <= k < |items| => RenderItem(options, items[k]))
  }

  /** `_sql_section`: each item rendered in order; the first item that
      fails decides the exception. */
  function RenderSection(options: Options, items: seq<Item>): (r: Result<seq<string>, set<PyError>>)
    decreases items, 5
  {
    All(RenderEach(options, items))
  }

  /** The SELECT clause: the DISTINCT ON part only when there are
      distinct-on expressions, then the select list. */
  function SelectClause(distinctOn: seq<string>, columns: seq<string>): string {
    "SELECT"
    + (if |distinctOn| > 0 then " DISTINCT ON (" + Strings.Join(", ", distinctOn) + ")" else "")
    + " " + Strings.Join(", ", columns)
  }

  function FromClause(tables: seq<string>): string {
    "FROM " + Strings.Join(", ", tables)
  }

  /** Every WHERE item is parenthesised on its own and the items are
      AND-combined. */
  function WhereClause(conditions: seq<string>): string {
    "WHERE (" + Strings.Join(") AND (", conditions) + ")"
  }

  function GroupByClause(groups: seq<string>): string {
    "GROUP BY " + Strings.Join(", ", groups)
  }

  function OrderByClause(orders: seq<string>): string {
    "ORDER BY " + Strings.Join(", ", orders)
  }

  /** The clauses of the query in their fixed order; optional clauses
      whose section is empty are omitted. */
  function Clauses(d: seq<string>, s: seq<string>, f: seq<string>,
                   w: seq<string>, g: seq<string>, o: seq<string>): (r: seq<string>)
    ensures |r| == 2 + (if |w| > 0 then 1 else 0) + (if |g| > 0 then 1 else 0) + (if |o| > 0 then 1 else 0)
    ensures r[0] == SelectClause(d, s) && r[1] == FromClause(f)
    ensures |w| > 0 ==> r[2] == WhereClause(w)
    ensures |g| > 0 ==> r[if |w| > 0 then 3 else 2] == GroupByClause(g)
    ensures |o| > 0 ==> r[|r| - 1] == OrderByClause(o)
  {
    [SelectClause(d, s), FromClause(f)]
    + (if |w| > 0 then [WhereClause(w)] else [])
    + (if |g| > 0 then [GroupByClause(g)] else [])
    + (if |o| > 0 then [OrderByClause(o)] else [])
  }

  function Separator(options: Options): string {
    if options.nl then "\n" else " "
  }

  /** No item of the section binds a nested builder. */
  predicate FlatItems(items: seq<Item>) {
    forall j :: 0 <= j < |items| ==> !HasSubquery(items[j].context)
  }

  /** No item of any section binds a nested builder. */
  predicate Flat(q: Select) {
    && FlatItems(q.distinctOnItems) && FlatItems(q.selectItems) && FlatItems(q.fromItems)
    && FlatItems(q.whereItems) && FlatItems(q.groupByItems) && FlatItems(q.orderByItems)
  }

  /** The order in which `to_sql` renders the sections. */
  const RenderOrder: seq<Section> :=
    [DistinctOnSection, SelectSection, FromSection, WhereSection, GroupBySection, OrderBySection]

  /** The rendering of every section, in rendering order. */
  function RenderSections(q: Select): (rs: seq<Result<seq<string>, set<PyError>>>)
    ensures |rs| == |RenderOrder|
    ensures rs[0] == RenderSection(q.options, q.distinctOnItems) && rs[1] == RenderSection(q.options, q.selectItems)
    ensures rs[2] == RenderSection(q.options, q.fromItems) && rs[3] == RenderSection(q.options, q.whereItems)
    ensures rs[4] == RenderSection(q.options, q.groupByItems) && rs[5] == RenderSection(q.options, q.orderByItems)
    decreases q, 6
  {
    var opts := q.options;
    [RenderSection(opts, q.distinctOnItems), RenderSection(opts, q.selectItems),
     RenderSection(opts, q.fromItems), RenderSection(opts, q.whereItems),
     RenderSection(opts, q.groupByItems), RenderSection(opts, q.orderByItems)]
  }

  /** `to_sql`. The from section is checked before the select section;
      then the sections are rendered in `RenderOrder` and the clauses
      joined by a newline or a space. */
  function ToSql(q: Select): (r: Result<string, set<PyError>>)
    ensures |q.fromItems| == 0 ==> r == Err({MissingSection("from")})
    ensures |q.fromItems| > 0 && |q.selectItems| == 0 ==> r == Err({MissingSection("select")})
    ensures r.Err? ==> r.error != {}
    decreases q, 7
  {
    if |q.fromItems| == 0 then Err({MissingSection("from")})
    else if |q.selectItems| == 0 then Err({MissingSection("select")})
    else
      var rendered :- All(RenderSections(q));
      Ok(Strings.Join(Separator(q.options), Clauses(
        rendered[0], rendered[1], rendered[2], rendered[3], rendered[4], rendered[5])))
  }

  // ---------------------------------------------------------------------
  // Properties of rendering

  /** With both required sections present and every section rendering,
      `to_sql` is the clauses of the rendered sections joined by the
      separator. */
  lemma ToSqlLayout(q: Select)
    requires |q.fromItems| > 0 && |q.selectItems| > 0
    requires RenderSection(q.options, q.distinctOnItems).Ok? && RenderSection(q.options, q.selectItems).Ok?
    requires RenderSection(q.options, q.fromItems).Ok? && RenderSection(q.options, q.whereItems).Ok?
    requires RenderSection(q.options, q.groupByItems).Ok? && RenderSection(q.options, q.orderByItems).Ok?
    ensures ToSql(q) == Ok(Strings.Join(Separator(q.options), Clauses(
      RenderSection(q.options, q.distinctOnItems).value,
      RenderSection(q.options, q.selectItems).value,
      RenderSection(q.options, q.fromItems).value,
      RenderSection(q.options, q.whereItems).value,
      RenderSection(q.options, q.groupByItems).value,
      RenderSection(q.options, q.orderByItems).value)))
  {
    var opts := q.options;
    AllSix(RenderSection(opts, q.distinctOnItems), RenderSection(opts, q.selectItems),
      RenderSection(opts, q.fromItems), RenderSection(opts, q.whereItems),
      RenderSection(opts, q.groupByItems), RenderSection(opts, q.orderByItems));
  }

  /** No rendered expression contains a line break. */
  predicate NoNewline(texts: seq<string>) {
    forall j :: 0 <= j < |texts| ==> '\n' !in texts[j]
  }

  /** The clause built from newline-free expressions is newline-free. */
  lemma ClausesNoNewline(d: seq<string>, s: seq<string>, f: seq<string>,
                         w: seq<string>, g: seq<string>, o: seq<string>)
    requires NoNewline(d) && NoNewline(s) && NoNewline(f) && NoNewline(w) && NoNewline(g) && NoNewline(o)
    ensures NoNewline(Clauses(d, s, f, w, g, o))
  {
    var c1 := SelectClause(d, s);
    assert '\n' !in c1 by {
      Strings.JoinFree(", ", d, '\n');
      Strings.JoinFree(", ", s, '\n');
    }
    var c2 := FromClause(f);
    assert '\n' !in c2 by { Strings.JoinFree(", ", f, '\n'); }
    var c3 := WhereClause(w);
    assert '\n' !in c3 by { Strings.JoinFree(") AND (", w, '\n'); }
    var c4 := GroupByClause(g);
    assert '\n' !in c4 by { Strings.JoinFree(", ", g, '\n'); }
    var c5 := OrderByClause(o);
    assert '\n' !in c5 by { Strings.JoinFree(", ", o, '\n'); }
    var opt3: seq<string> := if |w| > 0 then [c3] else [];
    var opt4: seq<string> := if |g| > 0 then [c4] else [];
    var opt5: seq<string> := if |o| > 0 then [c5] else [];
    assert Clauses(d, s, f, w, g, o) == [c1, c2] + opt3 + opt4 + opt5;
  }

  /** With `nl` set and no line break inside any rendered expression, the
      lines of the SQL are exactly its clauses, in order. */
  lemma NewlineLines(q: Select)
    requires q.options.nl && |q.fromItems| > 0 && |q.selectItems| > 0
    requires forall k :: 0 <= k < |RenderOrder| ==> RenderSections(q)[k].Ok? && NoNewline(RenderSections(q)[k].value)
    ensures ToSql(q).Ok?
    ensures Strings.Split(ToSql(q).value, '\n') == Clauses(
      RenderSection(q.options, q.distinctOnItems).value,
      RenderSection(q.options, q.selectItems).value,
      RenderSection(q.options, q.fromItems).value,
      RenderSection(q.options, q.whereItems).value,
      RenderSection(q.options, q.groupByItems).value,
      RenderSection(q.options, q.orderByItems).value)
  {
    var rs := RenderSections(q);
    assert rs[0].Ok? && NoNewline(rs[0].value);
    assert rs[1].Ok? && NoNewline(rs[1].value);
    assert rs[2].Ok? && NoNewline(rs[2].value);
    assert rs[3].Ok? && NoNewline(rs[3].value);
    assert rs[4].Ok? && NoNewline(rs[4].value);
    assert rs[5].Ok? && NoNewline(rs[5].value);
    ToSqlLayout(q);
    var clauses := Clauses(rs[0].value, rs[1].value, rs[2].value, rs[3].value, rs[4].value, rs[5].value);
    ClausesNoNewline(rs[0].value, rs[1].value, rs[2].value, rs[3].value, rs[4].value, rs[5].value);
    Strings.SplitJoin(clauses, '\n');
  }

  /** An item renders without a line break when its replacements have
      none and either its template has none or `compact` is set, which
      turns every whitespace run into one space. */
  lemma RenderNoNewline(options: Options, item: Item)
    requires RenderItem(options, item).Ok?
    requires options.compact || '\n' !in item.expr
    requires forall l :: l in Replacements(item.context).value ==> '\n' !in Replacements(item.context).value[l]
    ensures '\n' !in RenderItem(options, item).value
  {
    var template := if options.compact then Template.Compact(item.expr) else item.expr;
    Template.FormatNoNewline(template, Replacements(item.context).value);
  }

  /** The same for every item of a section: the hypothesis of
      `NewlineLines` for that section. */
  lemma SectionNoNewline(options: Options, items: seq<Item>)
    requires RenderSection(options, items).Ok?
    requires forall j :: 0 <= j < |items| ==> options.compact || '\n' !in items[j].expr
    requires forall j :: 0 <= j < |items| ==>
      (Replacements(items[j].context).Ok? &&
       forall l :: l in Replacements(items[j].context).value ==> '\n' !in Replacements(items[j].context).value[l])
    ensures NoNewline(RenderSection(options, items).value)
  {
    var rs := RenderEach(options, items);
    forall j | 0 <= j < |items| ensures '\n' !in RenderSection(options, items).value[j] {
      assert rs[j] == RenderItem(options, items[j]);
      RenderNoNewline(options, items[j]);
    }
  }

  /** When `to_sql` fails after the required-section checks, the failure is
      the one of the first section, in rendering order, that fails. */
  lemma FailingSection(q: Select)
    requires |q.fromItems| > 0 && |q.selectItems| > 0 && ToSql(q).Err?
    ensures exists k :: 0 <= k < |RenderOrder|
                        && RenderSections(q)[k].Err? && ToSql(q).error == RenderSections(q)[k].error
                        && forall m :: 0 <= m < k ==> RenderSections(q)[m].Ok?
  {
    assert ToSql(q) == All(RenderSections(q)).PropagateFailure();
  }

  /** For a builder without nested builders, `MissingSection("from")` is
      raised exactly when the from section is empty, `MissingSection("select")`
      exactly when from is non-empty and select is empty, and no other
      failure is a `MissingSection`. */
  lemma FlatMissingSection(q: Select)
    requires Flat(q)
    ensures ToSql(q) == Err({MissingSection("from")}) <==> |q.fromItems| == 0
    ensures ToSql(q) == Err({MissingSection("select")}) <==> |q.fromItems| > 0 && |q.selectItems| == 0
    ensures |q.fromItems| > 0 && |q.selectItems| > 0 && ToSql(q).Err? ==>
      forall e :: e in ToSql(q).error ==> !e.MissingSection?
  {
    if |q.fromItems| > 0 && |q.selectItems| > 0 && ToSql(q).Err? {
      FailingSection(q);
      var k :| 0 <= k < |RenderOrder| && RenderSections(q)[k].Err? && ToSql(q).error == RenderSections(q)[k].error;
      var items := if k == 0 then q.distinctOnItems else if k == 1 then q.selectItems
                   else if k == 2 then q.fromItems else if k == 3 then q.whereItems
                   else if k == 4 then q.groupByItems else q.orderByItems;
      assert RenderSections(q)[k] == RenderSection(q.options, items);
      FlatSection(q.options, items);
      assert MissingSection("from") !in ToSql(q).error;
      assert MissingSection("select") !in ToSql(q).error;
    }
  }

  /** A section without nested builders never fails with `MissingSection`. */
  lemma FlatSection(options: Options, items: seq<Item>)
    requires FlatItems(items)
    ensures RenderSection(options, items).Err? ==> forall e :: e in RenderSection(options, items).error ==> !e.MissingSection?
  {
    var rs := RenderEach(options, items);
    if All(rs).Err? {
      var j :| 0 <= j < |rs| && rs[j].Err? && All(rs).error == rs[j].error;
      assert !HasSubquery(items[j].context);
    }
  }

  /** A context without bindings renders no replacements and cannot
      fail. */
  lemma EmptyReplacements()
    ensures Replacements(Context(map[], map[])) == Ok(map[])
  {
    var r := Replacements(Context(map[], map[]));
    assert r.Ok?;
    assert r.value.Keys == {};
  }

  /** A template without braces renders verbatim when the item's bindings
      render, whatever they are; with `compact` it renders compacted. */
  lemma RenderLiteral(options: Options, item: Item)
    requires Template.BraceFree(item.expr) && Replacements(item.context).Ok?
    ensures RenderItem(options, item) ==
      Ok(if options.compact then Template.Compact(item.expr) else item.expr)
  {
    var t := if options.compact then Template.Compact(item.expr) else item.expr;
    assert Template.BraceFree(t) by {
      if options.compact {
        Template.CompactKeeps(item.expr, '{');
        Template.CompactKeeps(item.expr, '}');
      }
    }
    Template.FormatLiteral(t, Replacements(item.context).value);
  }

  /** A template with one placeholder renders as the literal text around
      the placeholder's replacement. */
  lemma RenderField(options: Options, item: Item, a: string, name: string, b: string)
    requires !options.compact && item.expr == a + "{" + name + "}" + b
    requires Template.BraceFree(a) && Template.BraceFree(name) && Template.BraceFree(b)
    requires !Template.IsPositional(name)
    requires Replacements(item.context).Ok? && name in Replacements(item.context).value
    ensures RenderItem(options, item) == Ok(a + Replacements(item.context).value[name] + b)
  {
    Template.FormatField(a, name, b, Replacements(item.context).value);
  }

  /** With `compact`, the literal text around a placeholder is compacted
      but the replacement put in its place is not: a value or identifier
      keeps its own spacing. */
  lemma RenderCompactField(options: Options, item: Item, a: string, name: string, b: string)
    requires options.compact && item.expr == a + "{" + name + "}" + b
    requires Template.BraceFree(a) && Template.BraceFree(name) && Template.BraceFree(b)
    requires forall i :: 0 <= i < |name| ==> !Template.IsWhitespace(name[i])
    requires !Template.IsPositional(name)
    requires Replacements(item.context).Ok? && name in Replacements(item.context).value
    ensures RenderItem(options, item) ==
      Ok(Template.Compact(a) + Replacements(item.context).value[name] + Template.Compact(b))
  {
    Template.CompactFieldText(a, name, b);
    Template.CompactKeeps(a, '{');
    Template.CompactKeeps(a, '}');
    Template.CompactKeeps(b, '{');
    Template.CompactKeeps(b, '}');
    Template.FormatField(Template.Compact(a), name, Template.Compact(b), Replacements(item.context).value);
  }

  /** A template of any number of placeholders between brace-free texts
      renders as the texts with each placeholder's replacement in its
      place. */
  lemma RenderFields(options: Options, item: Item, lits: seq<string>, names: seq<string>)
    requires !options.compact && |lits| == |names| + 1 && item.expr == Template.Fill(lits, names)
    requires Template.AllBraceFree(lits) && Template.AllBraceFree(names)
    requires Replacements(item.context).Ok? && Template.AllBindable(names, Replacements(item.context).value)
    ensures RenderItem(options, item) == Ok(Template.Filled(lits, names, Replacements(item.context).value))
  {
    Template.FormatFields(lits, names, Replacements(item.context).value);
  }

  /** With `compact`, every literal text of the template is compacted on
      its own, while every placeholder named without whitespace is kept
      whole and its replacement put in unchanged: values and identifiers
      keep their own spacing, however many the template has. */
  lemma RenderCompactFields(options: Options, item: Item, lits: seq<string>, names: seq<string>)
    requires options.compact && |lits| == |names| + 1 && item.expr == Template.Fill(lits, names)
    requires Template.AllBraceFree(lits) && Template.AllBraceFree(names)
    requires forall i :: 0 <= i < |names| ==> Template.Unspaced(names[i])
    requires Replacements(item.context).Ok? && Template.AllBindable(names, Replacements(item.context).value)
    ensures RenderItem(options, item) ==
      Ok(Template.Filled(Template.CompactEach(lits), names, Replacements(item.context).value))
  {
    Template.CompactFill(lits, names);
    Template.CompactEachBraceFree(lits);
    Template.FormatFields(Template.CompactEach(lits), names, Replacements(item.context).value);
  }

  /** An item whose one field is not bound raises for that field. */
  lemma RenderUnbound(options: Options, item: Item, a: string, name: string, b: string)
    requires !options.compact && item.expr == a + "{" + name + "}" + b
    requires Template.BraceFree(a) && Template.BraceFree(name) && Template.BraceFree(b)
    requires Replacements(item.context).Ok? && !Template.Bindable(name, Replacements(item.context).value)
    ensures RenderItem(options, item) == Err({Template.FieldError(name)})
  {
    Template.FormatUnbound(a, name, b, Replacements(item.context).value);
  }

  /** A section of one item renders to that item alone. */
  lemma RenderSingle(options: Options, item: Item)
    ensures RenderSection(options, [item]) ==
      if RenderItem(options, item).Ok? then Ok([RenderItem(options, item).value])
      else Err(RenderItem(options, item).error)
  {
    assert RenderEach(options, [item]) == [RenderItem(options, item)];
    AllSingle(RenderItem(options, item));
  }

  /** Appending an item to a section appends its rendering to the
      section's rendering; the first failure still wins. */
  lemma RenderSectionAppend(options: Options, items: seq<Item>, item: Item)
    ensures var before := RenderSection(options, items);
            var added := RenderItem(options, item);
            RenderSection(options, items + [item]) ==
              if before.Err? then before
              else if added.Err? then Err(added.error)
              else Ok(before.value + [added.value])
  {
    assert RenderEach(options, items + [item]) == RenderEach(options, items) + [RenderItem(options, item)];
    AllAppend(RenderEach(options, items), RenderItem(options, item));
  }

  /** Each clause adder appends exactly one rendered expression to its own
      section and leaves the rendering of every other section as it was. */
  lemma AddExprRendering(q: Select, section: Section, expr: string,
                         identifiers: map<string, Identifier>, values: map<string, Value>)
    ensures var r := AddExpr(q, section, expr, identifiers, values);
            var item := Item(expr, Merge(q.global, Context(identifiers, values)));
            && RenderSection(r.options, r.Items(section)) ==
                 (var before := RenderSection(q.options, q.Items(section));
                  var added := RenderItem(q.options, item);
                  if before.Err? then before
                  else if added.Err? then Err(added.error)
                  else Ok(before.value + [added.value]))
            && forall other :: other != section ==>
                 RenderSection(r.options, r.Items(other)) == RenderSection(q.options, q.Items(other))
  {
    var item := Item(expr, Merge(q.global, Context(identifiers, values)));
    RenderSectionAppend(q.options, q.Items(section), item);
  }
}
