/** Concrete queries with the SQL `to_sql` produces for them. */
module SqlGeneratorExamples {
  import opened Results
  import opened SqlGenerator
  import Strings
  import Sanitizer
  import Template

  const NoIds: map<string, Identifier> := map[]
  const NoValues: map<string, Value> := map[]
  const Unbound := Context(map[], map[])

  lemma EmptySection(options: Options)
    ensures RenderSection(options, []) == Ok([])
  {
  }

  /** A literal expression added to a builder without bindings. */
  lemma LiteralItem(options: Options, q: Select, expr: string)
    requires !options.compact && Template.BraceFree(expr) && q.global == Unbound
    ensures RenderSection(options, [Item(expr, Merge(q.global, Context(NoIds, NoValues)))]) == Ok([expr])
  {
    var item := Item(expr, Merge(q.global, Context(NoIds, NoValues)));
    assert item.context == Unbound;
    EmptyReplacements();
    RenderLiteral(options, item);
    RenderSingle(options, item);
  }

  /** `Select()`, `select_from('table')`, `select('field')`. */
  lemma BaseBuilder()
    ensures SelectColumn(SelectFrom(New(DefaultOptions, NoIds, NoValues), "table", NoIds, NoValues), "field", NoIds, NoValues)
         == Select(DefaultOptions, Unbound, [Item("table", Unbound)], [], [Item("field", Unbound)], [], [], [])
  {
  }

  lemma BaseQuery()
    ensures ToSql(Select(DefaultOptions, Unbound, [Item("table", Unbound)], [], [Item("field", Unbound)], [], [], []))
         == Ok("SELECT field FROM table")
  {
    var q := Select(DefaultOptions, Unbound, [Item("table", Unbound)], [], [Item("field", Unbound)], [], [], []);
    LiteralItem(DefaultOptions, q, "table");
    LiteralItem(DefaultOptions, q, "field");
    EmptySection(DefaultOptions);
    ToSqlLayout(q);
    BaseText();
  }

  lemma BaseText()
    ensures Strings.Join(" ", Clauses([], ["field"], ["table"], [], [], [])) == "SELECT field FROM table"
  {
    assert SelectClause([], ["field"]) == "SELECT field" by {
      assert Strings.Join(", ", ["field"]) == "field";
    }
    assert FromClause(["table"]) == "FROM table" by {
      assert Strings.Join(", ", ["table"]) == "table";
    }
    assert Clauses([], ["field"], ["table"], [], [], []) == ["SELECT field", "FROM table"];
  }

  /** A query of one column and one table. */
  lemma TwoSections(q: Select, column: string, table: string, sql: string)
    requires sql == "SELECT " + column + Separator(q.options) + "FROM " + table
    requires |q.selectItems| == 1 && |q.fromItems| == 1
    requires q.distinctOnItems == [] && q.whereItems == [] && q.groupByItems == [] && q.orderByItems == []
    requires RenderItem(q.options, q.selectItems[0]) == Ok(column)
    requires RenderItem(q.options, q.fromItems[0]) == Ok(table)
    ensures ToSql(q) == Ok(sql)
  {
    assert q.selectItems == [q.selectItems[0]];
    assert q.fromItems == [q.fromItems[0]];
    RenderSingle(q.options, q.selectItems[0]);
    RenderSingle(q.options, q.fromItems[0]);
    EmptySection(q.options);
    ToSqlLayout(q);
    TwoClausesText(Separator(q.options), column, table);
  }

  lemma TwoClausesText(sep: string, column: string, table: string)
    ensures Strings.Join(sep, Clauses([], [column], [table], [], [], [])) == "SELECT " + column + sep + "FROM " + table
  {
    assert Strings.Join(", ", [column]) == column;
    assert Strings.Join(", ", [table]) == table;
    assert SelectClause([], [column]) == "SELECT " + column by {
      assert "SELECT" + "" + " " + column == "SELECT " + column;
    }
    assert Clauses([], [column], [table], [], [], []) == ["SELECT " + column, "FROM " + table];
    assert Strings.Join(sep, ["FROM " + table]) == "FROM " + table;
  }

  const InnerSelect := Select(DefaultOptions, Unbound, [Item("t1", Unbound)], [], [Item("f1", Unbound)], [], [], [])
  const SubqueryFrom := Item("({query}) AS sub_query", Context(NoIds, map["query" := Subquery(InnerSelect)]))
  const OuterSelect := Select(DefaultOptions, Unbound, [SubqueryFrom], [], [Item("*", Unbound)], [], [], [])

  /** `select_from('({query}) AS sub_query', query=Select().select('f1').select_from('t1'))`
      with `select('*')`: a builder bound as a value renders as its own SQL,
      unquoted. */
  lemma NestedQuery()
    ensures ToSql(OuterSelect) == Ok("SELECT * FROM (SELECT f1 FROM t1) AS sub_query")
  {
    NestedTexts();
    InnerQuery();
    SubqueryItem(InnerSelect, "SELECT f1 FROM t1", "(SELECT f1 FROM t1) AS sub_query");
    StarItem();
    assert OuterSelect.fromItems[0] == SubqueryFrom;
    TwoSections(OuterSelect, "*", "(SELECT f1 FROM t1) AS sub_query", "SELECT * FROM (SELECT f1 FROM t1) AS sub_query");
  }

  lemma NestedTexts()
    ensures "SELECT f1 FROM t1" == "SELECT " + "f1" + " " + "FROM " + "t1"
    ensures "(SELECT f1 FROM t1) AS sub_query" == "(" + "SELECT f1 FROM t1" + ") AS sub_query"
    ensures "SELECT * FROM (SELECT f1 FROM t1) AS sub_query"
         == "SELECT " + "*" + " " + "FROM " + "(SELECT f1 FROM t1) AS sub_query"
    ensures Template.BraceFree("SELECT f1 FROM t1")
  {
    InnerText();
    SubqueryText();
    OuterText("(SELECT f1 FROM t1) AS sub_query");
    OuterPrefix();
  }

  lemma InnerText()
    ensures "SELECT f1 FROM t1" == "SELECT " + "f1" + " " + "FROM " + "t1"
    ensures Template.BraceFree("SELECT f1 FROM t1")
  {
  }

  lemma SubqueryText()
    ensures "(SELECT f1 FROM t1) AS sub_query" == "(" + "SELECT f1 FROM t1" + ") AS sub_query"
  {
  }

  lemma OuterText(x: string)
    ensures "SELECT " + "*" + " " + "FROM " + x == "SELECT * FROM " + x
  {
  }

  lemma OuterPrefix()
    ensures "SELECT * FROM (SELECT f1 FROM t1) AS sub_query" == "SELECT * FROM " + "(SELECT f1 FROM t1) AS sub_query"
  {
  }

  lemma InnerQuery()
    ensures ToSql(InnerSelect) == Ok("SELECT f1 FROM t1")
  {
    EmptyReplacements();
    RenderLiteral(DefaultOptions, Item("t1", Unbound));
    RenderLiteral(DefaultOptions, Item("f1", Unbound));
    NestedTexts();
    TwoSections(InnerSelect, "f1", "t1", "SELECT f1 FROM t1");
  }

  lemma StarItem()
    ensures RenderItem(DefaultOptions, Item("*", Unbound)) == Ok("*")
  {
    EmptyReplacements();
    RenderLiteral(DefaultOptions, Item("*", Unbound));
  }

  /** The template `({query}) AS sub_query` is one named placeholder. */
  lemma SubqueryTemplate()
    ensures "({query}) AS sub_query" == "(" + "{" + "query" + "}" + ") AS sub_query"
    ensures !Template.IsPositional("query") && Template.BraceFree("query")
    ensures Template.BraceFree("(") && Template.BraceFree(") AS sub_query")
  {
    assert "query"[0] == 'q';
  }

  lemma SubqueryItem(inner: Select, sql: string, result: string)
    requires ToSql(inner) == Ok(sql) && Template.BraceFree(sql) && result == "(" + sql + ") AS sub_query"
    ensures RenderItem(DefaultOptions, Item("({query}) AS sub_query", Context(NoIds, map["query" := Subquery(inner)])))
         == Ok(result)
  {
    SubqueryTemplate();
    ValueField(DefaultOptions, "({query}) AS sub_query", "(", "query", ") AS sub_query", Subquery(inner), sql, result);
  }

  // ---------------------------------------------------------------------
  // Required sections

  lemma MissingFrom()
    ensures ToSql(New(DefaultOptions, NoIds, NoValues)) == Err({MissingSection("from")})
    ensures ToSql(SelectColumn(New(DefaultOptions, NoIds, NoValues), "field", NoIds, NoValues))
         == Err({MissingSection("from")})
  {
  }

  lemma MissingSelect()
    ensures ToSql(SelectFrom(New(DefaultOptions, NoIds, NoValues), "table", NoIds, NoValues))
         == Err({MissingSection("select")})
  {
    var q := SelectFrom(New(DefaultOptions, NoIds, NoValues), "table", NoIds, NoValues);
    assert q.selectItems == [];
  }

  // ---------------------------------------------------------------------
  // Values and identifiers

  /** A template with one placeholder bound to a value. */
  lemma ValueField(options: Options, expr: string, a: string, name: string, b: string, v: Value, text: string, sql: string)
    requires !options.compact && expr == a + "{" + name + "}" + b && sql == a + text + b
    requires !Template.IsPositional(name) && ValueText(v) == Ok(text)
    requires Template.BraceFree(a) && Template.BraceFree(name) && Template.BraceFree(b)
    ensures RenderItem(options, Item(expr, Context(NoIds, map[name := v]))) == Ok(sql)
  {
    var ctx := Context(NoIds, map[name := v]);
    assert IdentifiersOk(ctx);
    RenderField(options, Item(expr, ctx), a, name, b);
  }

  /** A template with one placeholder bound to an identifier. */
  lemma IdentifierField(options: Options, expr: string, a: string, name: string, b: string, id: Identifier, text: string, sql: string)
    requires !options.compact && expr == a + "{" + name + "}" + b && sql == a + text + b
    requires !Template.IsPositional(name) && IdentText(id) == Ok(text)
    requires Template.BraceFree(a) && Template.BraceFree(name) && Template.BraceFree(b)
    ensures RenderItem(options, Item(expr, Context(map[name := id], NoValues))) == Ok(sql)
  {
    var ctx := Context(map[name := id], NoValues);
    assert IdentifiersOk(ctx);
    RenderField(options, Item(expr, ctx), a, name, b);
  }

  /** Clean text is quoted as it is. */
  lemma QuotedText(x: string)
    requires Sanitizer.IsClean(x)
    ensures ValueText(Scalar(Text(x))) == Ok("'" + x + "'")
    ensures IdentText(Name(Text(x))) == Ok("\"" + x + "\"")
  {
    Sanitizer.CleanIdentity(x);
  }

  lemma QuotedTwelve()
    ensures ValueText(Scalar(Text("12"))) == Ok("'12'")
  {
    QuotedText("12");
    assert "'12'" == "'" + "12" + "'";
  }

  /** `where('f2 = {val2}')` with `val2 = 12`: an int is not quoted. */
  lemma IntValue()
    ensures RenderItem(DefaultOptions, Item("f2 = {val2}", Context(NoIds, map["val2" := Scalar(Int(12))])))
         == Ok("f2 = 12")
  {
    assert "f2 = {val2}" == "f2 = " + "{" + "val2" + "}" + "";
    assert !Template.IsPositional("val2") by { assert "val2"[0] == 'v'; }
    assert Strings.IntToString(12) == "12";
    assert ValueText(Scalar(Int(12))) == Ok("12");
    assert "f2 = 12" == "f2 = " + "12" + "";
    ValueField(DefaultOptions, "f2 = {val2}", "f2 = ", "val2", "", Scalar(Int(12)), "12", "f2 = 12");
  }

  /** `where('f3 = {val3}')` with `val3 = 12.1`: a float is not quoted. */
  lemma FloatValue()
    ensures RenderItem(DefaultOptions, Item("f3 = {val3}", Context(NoIds, map["val3" := Scalar(Float("12.1"))])))
         == Ok("f3 = 12.1")
  {
    assert "f3 = {val3}" == "f3 = " + "{" + "val3" + "}" + "";
    assert !Template.IsPositional("val3") by { assert "val3"[0] == 'v'; }
    assert "f3 = 12.1" == "f3 = " + "12.1" + "";
    ValueField(DefaultOptions, "f3 = {val3}", "f3 = ", "val3", "", Scalar(Float("12.1")), "12.1", "f3 = 12.1");
  }

  /** `where('f1 = {val1}')` with `val1 = '12'`: a string is quoted. */
  lemma TextValue()
    ensures RenderItem(DefaultOptions, Item("f1 = {val1}", Context(NoIds, map["val1" := Scalar(Text("12"))])))
         == Ok("f1 = '12'")
  {
    assert "f1 = {val1}" == "f1 = " + "{" + "val1" + "}" + "";
    assert !Template.IsPositional("val1") by { assert "val1"[0] == 'v'; }
    QuotedTwelve();
    assert "f1 = '12'" == "f1 = " + "'12'" + "";
    ValueField(DefaultOptions, "f1 = {val1}", "f1 = ", "val1", "", Scalar(Text("12")), "'12'", "f1 = '12'");
  }

  /** A boolean value is quoted: the numeric test is an exact type check. */
  lemma BoolValue()
    ensures ValueText(Scalar(Bool(true))) == Ok("'True'")
  {
    Sanitizer.CleanIdentity("True");
    assert Str(Bool(true)) == "True";
    assert "'True'" == Quote('\'', "True");
  }

  /** An identifier tuple `('t1', 'f1')` renders as a qualified name. */
  lemma TupleIdentifier()
    ensures RenderItem(DefaultOptions, Item("{field}", Context(map["field" := Tuple([Text("t1"), Text("f1")])], NoValues)))
         == Ok("\"t1\".\"f1\"")
  {
    FieldTemplate();
    var sql := "\"t1\".\"f1\"";
    assert sql == "" + sql + "";
    QualifiedText();
    IdentifierField(DefaultOptions, "{field}", "", "field", "", Tuple([Text("t1"), Text("f1")]), sql, sql);
  }

  lemma QualifiedText()
    ensures IdentText(Tuple([Text("t1"), Text("f1")])) == Ok("\"t1\".\"f1\"")
  {
    Sanitizer.CleanIdentity("t1");
    Sanitizer.CleanIdentity("f1");
    assert "\"t1\".\"f1\"" == Quote('"', "t1") + "." + Quote('"', "f1");
  }

  /** The template `{field}` is one named placeholder. */
  lemma FieldTemplate()
    ensures "{field}" == "" + "{" + "field" + "}" + ""
    ensures !Template.IsPositional("field") && Template.BraceFree("field")
  {
    assert "field"[0] == 'f';
  }

  /** A one-part tuple has no second part: `IndexError`. */
  lemma ShortTuple()
    ensures RenderItem(DefaultOptions, Item("{field}", Context(map["field" := Tuple([Text("t1")])], NoValues)))
         == Err({IndexError})
  {
    var ctx := Context(map["field" := Tuple([Text("t1")])], NoValues);
    assert !IdentifiersOk(ctx) by {
      assert "field" in ctx.identifiers && IdentText(ctx.identifiers["field"]).Err?;
    }
  }

  /** An identifier bound to the int 12 is cast to a string and quoted. */
  lemma IdentifierCast()
    ensures IdentText(Name(Int(12))) == Ok("\"12\"")
  {
    assert Str(Int(12)) == "12";
    QuotedText("12");
    assert "\"12\"" == "\"" + "12" + "\"";
  }

  /** A placeholder with no binding raises `KeyError`. */
  lemma UnboundLabel()
    ensures RenderItem(DefaultOptions, Item("{field}", Unbound)) == Err({KeyError("field")})
  {
    FieldTemplate();
    EmptyReplacements();
    RenderUnbound(DefaultOptions, Item("{field}", Unbound), "", "field", "");
  }

  // ---------------------------------------------------------------------
  // Sanitising

  /** Quotes and the semicolon are dropped; the hyphens are kept, so
      `--` survives. */
  lemma CleanInjection()
    ensures Sanitizer.Clean("DROP\";--TABLE") == "DROP--TABLE"
  {
    CleanDrop();
    CleanTable();
    CleanQuote();
    CleanSplice("DROP\";--TABLE", "DROP--TABLE", "DROP", "\";", "--TABLE");
  }

  /** Text whose middle is dropped entirely cleans to its two ends. */
  lemma CleanSplice(s: string, r: string, x: string, y: string, z: string)
    requires s == x + (y + z) && r == x + z
    requires Sanitizer.Clean(x) == x && Sanitizer.Clean(y) == "" && Sanitizer.Clean(z) == z
    ensures Sanitizer.Clean(s) == r
  {
    Sanitizer.CleanConcat(y, z);
    assert Sanitizer.Clean(y + z) == z by { assert "" + z == z; }
    Sanitizer.CleanConcat(x, y + z);
  }

  lemma CleanDrop()
    ensures Sanitizer.Clean("DROP") == "DROP"
  {
    CleanKept("DROP");
  }

  lemma CleanTable()
    ensures Sanitizer.Clean("--TABLE") == "--TABLE"
  {
    CleanKept("--TABLE");
  }

  lemma CleanQuote()
    ensures Sanitizer.Clean("\";") == ""
  {
    Sanitizer.CleanDropsAll("\";");
  }

  lemma CleanKept(x: string)
    requires forall i :: 0 <= i < |x| ==> 'A' <= x[i] <= 'Z' || x[i] == '-'
    ensures Sanitizer.Clean(x) == x
  {
    Sanitizer.CleanIdentity(x);
  }

  // ---------------------------------------------------------------------
  // Options

  /** `compact` collapses the whitespace runs of the template. */
  lemma CompactTemplate()
    ensures Template.Compact("n = 1 \n  AND   n = 2") == "n = 1 AND n = 2"
  {
    var words, runs := ExampleWords, ExampleRuns;
    ExampleShape();
    Template.CompactInterleave(words, runs);
  }

  const ExampleWords: seq<string> := ["n", "=", "1", "AND", "n", "=", "2"]
  const ExampleRuns: seq<string> := [" ", " ", " \n  ", "   ", " ", " "]

  /** The compact example splits into these words and runs. */
  lemma ExampleShape()
    ensures |ExampleWords| == |ExampleRuns| + 1
    ensures forall i :: 0 <= i < |ExampleWords| ==> Template.IsWord(ExampleWords[i])
    ensures forall i :: 0 <= i < |ExampleRuns| ==> Template.IsRun(ExampleRuns[i])
    ensures Template.Interleave(ExampleWords, ExampleRuns) == "n = 1 \n  AND   n = 2"
    ensures Strings.Join(" ", ExampleWords) == "n = 1 AND n = 2"
  {
    ExampleWordsAreWords();
    ExampleRunsAreRuns();
    ExampleInterleave();
    ExampleJoin();
  }

  lemma ExampleWordsAreWords()
    ensures forall i :: 0 <= i < |ExampleWords| ==> Template.IsWord(ExampleWords[i])
  {
  }

  lemma ExampleRunsAreRuns()
    ensures forall i :: 0 <= i < |ExampleRuns| ==> Template.IsRun(ExampleRuns[i])
  {
  }

  lemma ExampleInterleave()
    ensures Template.Interleave(ExampleWords, ExampleRuns) == "n = 1 \n  AND   n = 2"
  {
  }

  lemma ExampleJoin()
    ensures Strings.Join(" ", ExampleWords) == "n = 1 AND n = 2"
  {
  }

  lemma CompactItem()
    ensures RenderItem(Options(false, true), Item("n = 1 \n  AND   n = 2", Unbound)) == Ok("n = 1 AND n = 2")
    ensures RenderItem(DefaultOptions, Item("n = 1 \n  AND   n = 2", Unbound)) == Ok("n = 1 \n  AND   n = 2")
  {
    EmptyReplacements();
    RenderLiteral(Options(false, true), Item("n = 1 \n  AND   n = 2", Unbound));
    RenderLiteral(DefaultOptions, Item("n = 1 \n  AND   n = 2", Unbound));
    CompactTemplate();
  }
}
