/** Whole queries with every section filled, and the exact SQL `to_sql`
    produces for them. Each expected text is written clause by clause,
    joined by the separator, so that it reads as the query does. */
module SqlGeneratorQueries {
  import opened Results
  import opened SqlGenerator
  import opened SqlGeneratorExamples
  import Strings
  import Sanitizer
  import Template

  // ---------------------------------------------------------------------
  // The layout of a query with every section filled

  /** With all six sections filled and rendered, the query is the five
      clauses in order, joined by the separator. */
  lemma FiveClauses(q: Select, d: seq<string>, s: seq<string>, f: seq<string>,
                    w: seq<string>, g: seq<string>, o: seq<string>,
                    c1: string, c2: string, c3: string, c4: string, c5: string)
    requires |q.fromItems| > 0 && |q.selectItems| > 0
    requires RenderSection(q.options, q.distinctOnItems) == Ok(d) && RenderSection(q.options, q.selectItems) == Ok(s)
    requires RenderSection(q.options, q.fromItems) == Ok(f) && RenderSection(q.options, q.whereItems) == Ok(w)
    requires RenderSection(q.options, q.groupByItems) == Ok(g) && RenderSection(q.options, q.orderByItems) == Ok(o)
    requires |d| > 0 && |w| > 0 && |g| > 0 && |o| > 0
    requires SelectClause(d, s) == c1 && FromClause(f) == c2 && WhereClause(w) == c3
    requires GroupByClause(g) == c4 && OrderByClause(o) == c5
    ensures var sep := Separator(q.options);
            ToSql(q) == Ok(c1 + sep + c2 + sep + c3 + sep + c4 + sep + c5)
  {
    ToSqlLayout(q);
    FullClauses(d, s, f, w, g, o);
    Strings.JoinFive(Separator(q.options), c1, c2, c3, c4, c5);
  }

  lemma FullClauses(d: seq<string>, s: seq<string>, f: seq<string>,
                    w: seq<string>, g: seq<string>, o: seq<string>)
    requires |w| > 0 && |g| > 0 && |o| > 0
    ensures Clauses(d, s, f, w, g, o) ==
      [SelectClause(d, s), FromClause(f), WhereClause(w), GroupByClause(g), OrderByClause(o)]
  {
  }

  /** The SELECT clause with a DISTINCT ON part. */
  lemma DistinctSelect(d: seq<string>, s: seq<string>, x: string, y: string)
    requires |d| > 0 && Strings.Join(", ", d) == x && Strings.Join(", ", s) == y
    ensures SelectClause(d, s) == "SELECT DISTINCT ON (" + x + ") " + y
  {
    assert "SELECT" + " DISTINCT ON (" == "SELECT DISTINCT ON (";
    assert ")" + " " == ") ";
    Assoc4("SELECT", " DISTINCT ON (", x, ")", " ", y);
  }

  lemma Assoc4(a: string, b: string, x: string, c: string, d: string, y: string)
    ensures a + (b + x + c) + d + y == (a + b) + x + (c + d) + y
  {
  }

  lemma JoinTwo(sep: string, a: string, b: string)
    ensures Strings.Join(sep, [a, b]) == a + sep + b
  {
    Strings.JoinCons(sep, a, [b]);
  }

  /** A section of items that each render on their own. */
  lemma OneItem(options: Options, item: Item, t: string)
    requires RenderItem(options, item) == Ok(t)
    ensures RenderSection(options, [item]) == Ok([t])
  {
    RenderSingle(options, item);
  }

  lemma TwoItems(options: Options, i1: Item, i2: Item, t1: string, t2: string)
    requires RenderItem(options, i1) == Ok(t1) && RenderItem(options, i2) == Ok(t2)
    ensures RenderSection(options, [i1, i2]) == Ok([t1, t2])
  {
    var first := [i1];
    OneItem(options, i1, t1);
    RenderSectionAppend(options, first, i2);
    assert first + [i2] == [i1, i2];
    assert [t1] + [t2] == [t1, t2];
  }

  /** An expression without placeholders and without bindings renders as
      written. */
  lemma PlainItem(options: Options, item: Item, expr: string)
    requires !options.compact && Template.BraceFree(expr) && item == Item(expr, Unbound)
    ensures RenderItem(options, item) == Ok(expr)
  {
    EmptyReplacements();
    RenderLiteral(options, item);
  }

  /** A query with one placeholder-free, unbound expression in every
      section. */
  lemma PlainEach(q: Select, d: string, s: string, f: string, w: string, g: string, o: string)
    requires !q.options.compact
    requires Template.BraceFree(d) && Template.BraceFree(s) && Template.BraceFree(f)
    requires Template.BraceFree(w) && Template.BraceFree(g) && Template.BraceFree(o)
    requires q.distinctOnItems == [Item(d, Unbound)] && q.selectItems == [Item(s, Unbound)]
    requires q.fromItems == [Item(f, Unbound)] && q.whereItems == [Item(w, Unbound)]
    requires q.groupByItems == [Item(g, Unbound)] && q.orderByItems == [Item(o, Unbound)]
    ensures var sep := Separator(q.options);
            ToSql(q) == Ok(SelectClause([d], [s]) + sep + FromClause([f]) + sep + WhereClause([w])
                           + sep + GroupByClause([g]) + sep + OrderByClause([o]))
  {
    PlainItem(q.options, q.distinctOnItems[0], d);
    PlainItem(q.options, q.selectItems[0], s);
    PlainItem(q.options, q.fromItems[0], f);
    PlainItem(q.options, q.whereItems[0], w);
    PlainItem(q.options, q.groupByItems[0], g);
    PlainItem(q.options, q.orderByItems[0], o);
    OneEach(q, d, s, f, w, g, o);
  }

  /** A query with one item in every section, each item rendering to the
      given text. */
  lemma OneEach(q: Select, d: string, s: string, f: string, w: string, g: string, o: string)
    requires |q.distinctOnItems| == 1 && |q.selectItems| == 1 && |q.fromItems| == 1
    requires |q.whereItems| == 1 && |q.groupByItems| == 1 && |q.orderByItems| == 1
    requires RenderItem(q.options, q.distinctOnItems[0]) == Ok(d)
    requires RenderItem(q.options, q.selectItems[0]) == Ok(s)
    requires RenderItem(q.options, q.fromItems[0]) == Ok(f)
    requires RenderItem(q.options, q.whereItems[0]) == Ok(w)
    requires RenderItem(q.options, q.groupByItems[0]) == Ok(g)
    requires RenderItem(q.options, q.orderByItems[0]) == Ok(o)
    ensures var sep := Separator(q.options);
            ToSql(q) == Ok(SelectClause([d], [s]) + sep + FromClause([f]) + sep + WhereClause([w])
                           + sep + GroupByClause([g]) + sep + OrderByClause([o]))
  {
    assert q.distinctOnItems == [q.distinctOnItems[0]] && q.selectItems == [q.selectItems[0]];
    assert q.fromItems == [q.fromItems[0]] && q.whereItems == [q.whereItems[0]];
    assert q.groupByItems == [q.groupByItems[0]] && q.orderByItems == [q.orderByItems[0]];
    OneItem(q.options, q.distinctOnItems[0], d);
    OneItem(q.options, q.selectItems[0], s);
    OneItem(q.options, q.fromItems[0], f);
    OneItem(q.options, q.whereItems[0], w);
    OneItem(q.options, q.groupByItems[0], g);
    OneItem(q.options, q.orderByItems[0], o);
    FiveClauses(q, [d], [s], [f], [w], [g], [o],
      SelectClause([d], [s]), FromClause([f]), WhereClause([w]), GroupByClause([g]), OrderByClause([o]));
  }

  // ---------------------------------------------------------------------
  // test_all_sections and test_option_nl

  /** `select_from('table')`, `distinct_on('another_field')`,
      `select('field')`, `where('number = 1')`, `order_by('way ASC')`,
      `group_by('group')`, on a builder with the given options. */
  function AllSections(options: Options): Select {
    var q0 := New(options, NoIds, NoValues);
    var q1 := SelectFrom(q0, "table", NoIds, NoValues);
    var q2 := DistinctOn(q1, "another_field", NoIds, NoValues);
    var q3 := SelectColumn(q2, "field", NoIds, NoValues);
    var q4 := Where(q3, "number = 1", NoIds, NoValues);
    var q5 := OrderBy(q4, "way ASC", NoIds, NoValues);
    GroupBy(q5, "group", NoIds, NoValues)
  }

  lemma AllSectionsBuilder(options: Options)
    ensures AllSections(options) == Select(options, Unbound,
      [Item("table", Unbound)], [Item("another_field", Unbound)], [Item("field", Unbound)],
      [Item("number = 1", Unbound)], [Item("way ASC", Unbound)], [Item("group", Unbound)])
  {
    assert Merge(Unbound, Context(NoIds, NoValues)) == Unbound;
  }

  /** The clauses of the all-sections query. */
  lemma AllSectionsClauses()
    ensures SelectClause(["another_field"], ["field"]) == "SELECT DISTINCT ON (another_field) field"
    ensures FromClause(["table"]) == "FROM table"
    ensures WhereClause(["number = 1"]) == "WHERE (number = 1)"
    ensures GroupByClause(["group"]) == "GROUP BY group"
    ensures OrderByClause(["way ASC"]) == "ORDER BY way ASC"
  {
    DistinctSelect(["another_field"], ["field"], "another_field", "field");
    assert "SELECT DISTINCT ON (" + "another_field" + ") " + "field" == "SELECT DISTINCT ON (another_field) field";
    assert "FROM " + "table" == "FROM table";
    assert "WHERE (" + "number = 1" + ")" == "WHERE (number = 1)";
    assert "GROUP BY " + "group" == "GROUP BY group";
    assert "ORDER BY " + "way ASC" == "ORDER BY way ASC";
  }

  /** The all-sections query renders its five clauses in order, each
      section once. */
  lemma AllSectionsQuery(options: Options)
    requires !options.compact
    ensures var sep := Separator(options);
            ToSql(AllSections(options)) == Ok(
              "SELECT DISTINCT ON (another_field) field" + sep + "FROM table" + sep
              + "WHERE (number = 1)" + sep + "GROUP BY group" + sep + "ORDER BY way ASC")
  {
    AllSectionsBuilder(options);
    AllSectionsText(AllSections(options));
  }

  lemma AllSectionsText(q: Select)
    requires !q.options.compact
    requires q.distinctOnItems == [Item("another_field", Unbound)] && q.selectItems == [Item("field", Unbound)]
    requires q.fromItems == [Item("table", Unbound)] && q.whereItems == [Item("number = 1", Unbound)]
    requires q.groupByItems == [Item("group", Unbound)] && q.orderByItems == [Item("way ASC", Unbound)]
    ensures var sep := Separator(q.options);
            ToSql(q) == Ok(
              "SELECT DISTINCT ON (another_field) field" + sep + "FROM table" + sep
              + "WHERE (number = 1)" + sep + "GROUP BY group" + sep + "ORDER BY way ASC")
  {
    AllSectionsPlain();
    PlainEach(q, "another_field", "field", "table", "number = 1", "group", "way ASC");
    AllSectionsClauses();
  }

  lemma AllSectionsPlain()
    ensures Template.BraceFree("another_field") && Template.BraceFree("field") && Template.BraceFree("table")
    ensures Template.BraceFree("number = 1") && Template.BraceFree("group") && Template.BraceFree("way ASC")
  {
  }

  /** test_all_sections: the clauses joined by single spaces. */
  lemma AllSectionsSpaced()
    ensures ToSql(AllSections(DefaultOptions)) == Ok(
      "SELECT DISTINCT ON (another_field) field" + " " + "FROM table" + " "
      + "WHERE (number = 1)" + " " + "GROUP BY group" + " " + "ORDER BY way ASC")
  {
    AllSectionsQuery(DefaultOptions);
  }

  /** test_option_nl: with `nl` the same clauses are one per line. */
  lemma AllSectionsNewline()
    ensures ToSql(AllSections(Options(true, false))) == Ok(
      "SELECT DISTINCT ON (another_field) field" + "\n" + "FROM table" + "\n"
      + "WHERE (number = 1)" + "\n" + "GROUP BY group" + "\n" + "ORDER BY way ASC")
  {
    AllSectionsQuery(Options(true, false));
  }

  // ---------------------------------------------------------------------
  // test_all_sections_multiple

  /** Two placeholder-free, unbound expressions render as a section of
      both, in order. */
  lemma PlainPair(options: Options, items: seq<Item>, t1: string, t2: string)
    requires !options.compact && Template.BraceFree(t1) && Template.BraceFree(t2)
    requires items == [Item(t1, Unbound), Item(t2, Unbound)]
    ensures RenderSection(options, items) == Ok([t1, t2])
  {
    PlainItem(options, items[0], t1);
    PlainItem(options, items[1], t2);
    TwoItems(options, items[0], items[1], t1, t2);
  }

  /** Every adder called twice, in the order of the test. */
  function AllSectionsMultiple(): Select {
    var q0 := New(DefaultOptions, NoIds, NoValues);
    var q1 := SelectFrom(SelectFrom(q0, "table1", NoIds, NoValues), "table2", NoIds, NoValues);
    var q2 := DistinctOn(DistinctOn(q1, "fielda", NoIds, NoValues), "fieldb", NoIds, NoValues);
    var q3 := SelectColumn(SelectColumn(q2, "field1", NoIds, NoValues), "field2", NoIds, NoValues);
    var q4 := Where(Where(q3, "number1 = 1", NoIds, NoValues), "number2 = 2", NoIds, NoValues);
    var q5 := OrderBy(OrderBy(q4, "way1 ASC", NoIds, NoValues), "way2 ASC", NoIds, NoValues);
    GroupBy(GroupBy(q5, "group1", NoIds, NoValues), "group2", NoIds, NoValues)
  }

  lemma MultipleBuilder()
    ensures AllSectionsMultiple() == Select(DefaultOptions, Unbound,
      [Item("table1", Unbound), Item("table2", Unbound)],
      [Item("fielda", Unbound), Item("fieldb", Unbound)],
      [Item("field1", Unbound), Item("field2", Unbound)],
      [Item("number1 = 1", Unbound), Item("number2 = 2", Unbound)],
      [Item("way1 ASC", Unbound), Item("way2 ASC", Unbound)],
      [Item("group1", Unbound), Item("group2", Unbound)])
  {
    UnboundMerge();
    var q0 := New(DefaultOptions, NoIds, NoValues);
    var q1 := SelectFrom(SelectFrom(q0, "table1", NoIds, NoValues), "table2", NoIds, NoValues);
    AddTwice(q0, FromSection, "table1", NoIds, Unbound, "table2", NoIds, Unbound);
    var q2 := DistinctOn(DistinctOn(q1, "fielda", NoIds, NoValues), "fieldb", NoIds, NoValues);
    AddTwice(q1, DistinctOnSection, "fielda", NoIds, Unbound, "fieldb", NoIds, Unbound);
    var q3 := SelectColumn(SelectColumn(q2, "field1", NoIds, NoValues), "field2", NoIds, NoValues);
    AddTwice(q2, SelectSection, "field1", NoIds, Unbound, "field2", NoIds, Unbound);
    var q4 := Where(Where(q3, "number1 = 1", NoIds, NoValues), "number2 = 2", NoIds, NoValues);
    AddTwice(q3, WhereSection, "number1 = 1", NoIds, Unbound, "number2 = 2", NoIds, Unbound);
    var q5 := OrderBy(OrderBy(q4, "way1 ASC", NoIds, NoValues), "way2 ASC", NoIds, NoValues);
    AddTwice(q4, OrderBySection, "way1 ASC", NoIds, Unbound, "way2 ASC", NoIds, Unbound);
    var q6 := GroupBy(GroupBy(q5, "group1", NoIds, NoValues), "group2", NoIds, NoValues);
    AddTwice(q5, GroupBySection, "group1", NoIds, Unbound, "group2", NoIds, Unbound);
  }

  /** Two expressions added to an empty section; `c1` and `c2` are the
      contexts the builder merges for them. */
  lemma AddTwice(q: Select, section: Section, e1: string, ids1: map<string, Identifier>, c1: Context,
                 e2: string, ids2: map<string, Identifier>, c2: Context)
    requires q.Items(section) == []
    requires Merge(q.global, Context(ids1, NoValues)) == c1 && Merge(q.global, Context(ids2, NoValues)) == c2
    ensures var r := AddExpr(AddExpr(q, section, e1, ids1, NoValues), section, e2, ids2, NoValues);
            && r.options == q.options && r.global == q.global
            && r.Items(section) == [Item(e1, c1), Item(e2, c2)]
            && forall other :: other != section ==> r.Items(other) == q.Items(other)
  {
    assert [] + [Item(e1, c1)] + [Item(e2, c2)] == [Item(e1, c1), Item(e2, c2)];
  }

  lemma UnboundMerge()
    ensures Merge(Unbound, Context(NoIds, NoValues)) == Unbound
  {
    assert Merge(Unbound, Context(NoIds, NoValues)) == Unbound;
  }

  lemma MultiplePlain()
    ensures Template.BraceFree("fielda") && Template.BraceFree("fieldb")
    ensures Template.BraceFree("field1") && Template.BraceFree("field2")
    ensures Template.BraceFree("table1") && Template.BraceFree("table2")
  {
  }

  lemma MultiplePlainMore()
    ensures Template.BraceFree("number1 = 1") && Template.BraceFree("number2 = 2")
    ensures Template.BraceFree("group1") && Template.BraceFree("group2")
    ensures Template.BraceFree("way1 ASC") && Template.BraceFree("way2 ASC")
  {
  }

  lemma MultipleSelect()
    ensures SelectClause(["fielda", "fieldb"], ["field1", "field2"])
         == "SELECT DISTINCT ON (fielda, fieldb) field1, field2"
  {
    MultipleColumns();
    DistinctSelect(["fielda", "fieldb"], ["field1", "field2"], "fielda, fieldb", "field1, field2");
    MultipleSelectText();
  }

  lemma MultipleColumns()
    ensures Strings.Join(", ", ["fielda", "fieldb"]) == "fielda, fieldb"
    ensures Strings.Join(", ", ["field1", "field2"]) == "field1, field2"
  {
    JoinTwo(", ", "fielda", "fieldb");
    JoinTwo(", ", "field1", "field2");
    assert "fielda" + ", " + "fieldb" == "fielda, fieldb";
    assert "field1" + ", " + "field2" == "field1, field2";
  }

  lemma MultipleSelectText()
    ensures "SELECT DISTINCT ON (" + "fielda, fieldb" + ") " + "field1, field2"
         == "SELECT DISTINCT ON (fielda, fieldb) field1, field2"
  {
  }

  lemma MultipleFrom()
    ensures FromClause(["table1", "table2"]) == "FROM table1, table2"
  {
    JoinTwo(", ", "table1", "table2");
    assert "FROM " + ("table1" + ", " + "table2") == "FROM table1, table2";
  }

  lemma MultipleWhere()
    ensures WhereClause(["number1 = 1", "number2 = 2"]) == "WHERE (number1 = 1) AND (number2 = 2)"
  {
    JoinTwo(") AND (", "number1 = 1", "number2 = 2");
    assert "WHERE (" + ("number1 = 1" + ") AND (" + "number2 = 2") + ")"
        == "WHERE (number1 = 1) AND (number2 = 2)";
  }

  lemma MultipleGroupBy()
    ensures GroupByClause(["group1", "group2"]) == "GROUP BY group1, group2"
  {
    JoinTwo(", ", "group1", "group2");
    assert "GROUP BY " + ("group1" + ", " + "group2") == "GROUP BY group1, group2";
  }

  lemma MultipleOrderBy()
    ensures OrderByClause(["way1 ASC", "way2 ASC"]) == "ORDER BY way1 ASC, way2 ASC"
  {
    JoinTwo(", ", "way1 ASC", "way2 ASC");
    assert "ORDER BY " + ("way1 ASC" + ", " + "way2 ASC") == "ORDER BY way1 ASC, way2 ASC";
  }

  lemma MultipleText(q: Select)
    requires q.options == DefaultOptions
    requires q.fromItems == [Item("table1", Unbound), Item("table2", Unbound)]
    requires q.distinctOnItems == [Item("fielda", Unbound), Item("fieldb", Unbound)]
    requires q.selectItems == [Item("field1", Unbound), Item("field2", Unbound)]
    requires q.whereItems == [Item("number1 = 1", Unbound), Item("number2 = 2", Unbound)]
    requires q.orderByItems == [Item("way1 ASC", Unbound), Item("way2 ASC", Unbound)]
    requires q.groupByItems == [Item("group1", Unbound), Item("group2", Unbound)]
    ensures ToSql(q) == Ok(
      "SELECT DISTINCT ON (fielda, fieldb) field1, field2" + " " + "FROM table1, table2" + " "
      + "WHERE (number1 = 1) AND (number2 = 2)" + " " + "GROUP BY group1, group2" + " "
      + "ORDER BY way1 ASC, way2 ASC")
  {
    MultiplePlain();
    MultiplePlainMore();
    var opts := q.options;
    PlainPair(opts, q.distinctOnItems, "fielda", "fieldb");
    PlainPair(opts, q.selectItems, "field1", "field2");
    PlainPair(opts, q.fromItems, "table1", "table2");
    PlainPair(opts, q.whereItems, "number1 = 1", "number2 = 2");
    PlainPair(opts, q.groupByItems, "group1", "group2");
    PlainPair(opts, q.orderByItems, "way1 ASC", "way2 ASC");
    MultipleSelect();
    MultipleFrom();
    MultipleWhere();
    MultipleGroupBy();
    MultipleOrderBy();
    FiveClauses(q, ["fielda", "fieldb"], ["field1", "field2"], ["table1", "table2"],
      ["number1 = 1", "number2 = 2"], ["group1", "group2"], ["way1 ASC", "way2 ASC"],
      "SELECT DISTINCT ON (fielda, fieldb) field1, field2", "FROM table1, table2",
      "WHERE (number1 = 1) AND (number2 = 2)", "GROUP BY group1, group2", "ORDER BY way1 ASC, way2 ASC");
  }

  /** test_all_sections_multiple: items of one section are joined by a
      comma, WHERE conditions by AND, each in its own parentheses. */
  lemma AllSectionsMultipleQuery()
    ensures ToSql(AllSectionsMultiple()) == Ok(
      "SELECT DISTINCT ON (fielda, fieldb) field1, field2" + " " + "FROM table1, table2" + " "
      + "WHERE (number1 = 1) AND (number2 = 2)" + " " + "GROUP BY group1, group2" + " "
      + "ORDER BY way1 ASC, way2 ASC")
  {
    MultipleBuilder();
    MultipleText(AllSectionsMultiple());
  }

  // ---------------------------------------------------------------------
  // test_local_identifier

  /** The builder's identifiers. */
  const GlobalIds: map<string, Identifier> :=
    map["table" := Name(Text("table_name")), "field" := Name(Text("field_name"))]

  /** The identifiers passed with the second call of each adder. */
  const LocalIds: map<string, Identifier> := map["field" := Name(Text("another_field"))]

  const Global := Context(GlobalIds, NoValues)

  /** The merged context of an item added with `LocalIds`. */
  const Shadowed := Context(map["table" := Name(Text("table_name")), "field" := Name(Text("another_field"))], NoValues)

  /** A builder with global identifiers; every adder is called once with
      no bindings of its own and once rebinding `field`. */
  function LocalIdentifier(): Select {
    var q0 := New(DefaultOptions, GlobalIds, NoValues);
    var q1 := SelectFrom(q0, "{table}", NoIds, NoValues);
    var q2 := DistinctOn(DistinctOn(q1, "{field}", NoIds, NoValues), "{field}", LocalIds, NoValues);
    var q3 := SelectColumn(SelectColumn(q2, "{field}", NoIds, NoValues), "{field}", LocalIds, NoValues);
    var q4 := Where(Where(q3, "{field} = 1", NoIds, NoValues), "{field} = 2", LocalIds, NoValues);
    var q5 := OrderBy(OrderBy(q4, "{field} ASC", NoIds, NoValues), "{field} DESC", LocalIds, NoValues);
    GroupBy(GroupBy(q5, "{field}", NoIds, NoValues), "{field}", LocalIds, NoValues)
  }

  /** Without local bindings an item sees the builder's; a local binding
      of `field` replaces the builder's. */
  lemma GlobalMerge()
    ensures Merge(Global, Context(NoIds, NoValues)) == Global
    ensures Merge(Global, Context(LocalIds, NoValues)) == Shadowed
  {
    assert Merge(Global, Context(NoIds, NoValues)).identifiers == GlobalIds;
    assert Merge(Global, Context(LocalIds, NoValues)).identifiers == Shadowed.identifiers;
  }

  /** The first item of each pair sees the builder's binding of `field`,
      the second the local one, which wins. */
  lemma LocalBuilder()
    ensures LocalIdentifier() == Select(DefaultOptions, Global,
      [Item("{table}", Global)],
      [Item("{field}", Global), Item("{field}", Shadowed)],
      [Item("{field}", Global), Item("{field}", Shadowed)],
      [Item("{field} = 1", Global), Item("{field} = 2", Shadowed)],
      [Item("{field} ASC", Global), Item("{field} DESC", Shadowed)],
      [Item("{field}", Global), Item("{field}", Shadowed)])
  {
    GlobalMerge();
    var q0 := New(DefaultOptions, GlobalIds, NoValues);
    var q1 := SelectFrom(q0, "{table}", NoIds, NoValues);
    assert [] + [Item("{table}", Global)] == [Item("{table}", Global)];
    var q2 := DistinctOn(DistinctOn(q1, "{field}", NoIds, NoValues), "{field}", LocalIds, NoValues);
    AddTwice(q1, DistinctOnSection, "{field}", NoIds, Global, "{field}", LocalIds, Shadowed);
    var q3 := SelectColumn(SelectColumn(q2, "{field}", NoIds, NoValues), "{field}", LocalIds, NoValues);
    AddTwice(q2, SelectSection, "{field}", NoIds, Global, "{field}", LocalIds, Shadowed);
    var q4 := Where(Where(q3, "{field} = 1", NoIds, NoValues), "{field} = 2", LocalIds, NoValues);
    AddTwice(q3, WhereSection, "{field} = 1", NoIds, Global, "{field} = 2", LocalIds, Shadowed);
    var q5 := OrderBy(OrderBy(q4, "{field} ASC", NoIds, NoValues), "{field} DESC", LocalIds, NoValues);
    AddTwice(q4, OrderBySection, "{field} ASC", NoIds, Global, "{field} DESC", LocalIds, Shadowed);
    var q6 := GroupBy(GroupBy(q5, "{field}", NoIds, NoValues), "{field}", LocalIds, NoValues);
    AddTwice(q5, GroupBySection, "{field}", NoIds, Global, "{field}", LocalIds, Shadowed);
  }

  lemma CleanNames()
    ensures Sanitizer.IsClean("table_name") && Sanitizer.IsClean("field_name")
    ensures Sanitizer.IsClean("another_field")
  {
  }

  /** A context that binds only names: each name is rendered quoted. */
  lemma NameReplacement(ctx: Context, k: string, x: string)
    requires ctx.values == map[] && forall j :: j in ctx.identifiers ==> ctx.identifiers[j].Name?
    requires k in ctx.identifiers && ctx.identifiers[k] == Name(Text(x)) && Sanitizer.IsClean(x)
    ensures Replacements(ctx).Ok? && k in Replacements(ctx).value
    ensures Replacements(ctx).value[k] == "\"" + x + "\""
  {
    assert IdentifiersOk(ctx);
    QuotedText(x);
  }

  /** The replacements of the two contexts: the names quoted. */
  lemma GlobalReplacements(ctx: Context)
    requires ctx == Global
    ensures Replacements(ctx).Ok? && "table" in Replacements(ctx).value && "field" in Replacements(ctx).value
    ensures Replacements(ctx).value["table"] == "\"" + "table_name" + "\""
    ensures Replacements(ctx).value["field"] == "\"" + "field_name" + "\""
  {
    CleanNames();
    NameReplacement(ctx, "table", "table_name");
    NameReplacement(ctx, "field", "field_name");
  }

  lemma ShadowedReplacements(ctx: Context)
    requires ctx == Shadowed
    ensures Replacements(ctx).Ok? && "field" in Replacements(ctx).value
    ensures Replacements(ctx).value["field"] == "\"" + "another_field" + "\""
  {
    CleanNames();
    NameReplacement(ctx, "field", "another_field");
  }

  /** A placeholder followed by literal text, rendered in a context whose
      replacement for it is given. */
  lemma FieldThen(options: Options, item: Item, name: string, rest: string, text: string)
    requires !options.compact && item.expr == "" + "{" + name + "}" + rest
    requires Template.BraceFree(name) && !Template.IsPositional(name) && Template.BraceFree(rest)
    requires Replacements(item.context).Ok? && name in Replacements(item.context).value
    requires Replacements(item.context).value[name] == text
    ensures RenderItem(options, item) == Ok("" + text + rest)
  {
    RenderField(options, item, "", name, rest);
  }

  lemma EmptyPrefix(t: string, r: string)
    ensures "" + t + r == t + r
  {
  }

  /** Two items with the same placeholder, each followed by its own text,
      in contexts that bind the placeholder differently. */
  lemma FieldPair(options: Options, items: seq<Item>, name: string, r1: string, c1: Context, t1: string,
                  r2: string, c2: Context, t2: string)
    requires !options.compact && Template.BraceFree(name) && !Template.IsPositional(name)
    requires Template.BraceFree(r1) && Template.BraceFree(r2)
    requires items == [Item("" + "{" + name + "}" + r1, c1), Item("" + "{" + name + "}" + r2, c2)]
    requires Replacements(c1).Ok? && name in Replacements(c1).value && Replacements(c1).value[name] == t1
    requires Replacements(c2).Ok? && name in Replacements(c2).value && Replacements(c2).value[name] == t2
    ensures RenderSection(options, items) == Ok([t1 + r1, t2 + r2])
  {
    FieldThen(options, items[0], name, r1, t1);
    FieldThen(options, items[1], name, r2, t2);
    TwoItems(options, items[0], items[1], "" + t1 + r1, "" + t2 + r2);
    EmptyPrefix(t1, r1);
    EmptyPrefix(t2, r2);
  }

  /** The templates of the test as a placeholder and the text after it. */
  lemma LocalTemplates()
    ensures "{table}" == "" + "{" + "table" + "}" + "" && "{field}" == "" + "{" + "field" + "}" + ""
    ensures "{field} = 1" == "" + "{" + "field" + "}" + " = 1" && "{field} = 2" == "" + "{" + "field" + "}" + " = 2"
    ensures "{field} ASC" == "" + "{" + "field" + "}" + " ASC" && "{field} DESC" == "" + "{" + "field" + "}" + " DESC"
    ensures !Template.IsPositional("table") && Template.BraceFree("table")
    ensures !Template.IsPositional("field") && Template.BraceFree("field")
    ensures Template.BraceFree("") && Template.BraceFree(" = 1") && Template.BraceFree(" = 2")
    ensures Template.BraceFree(" ASC") && Template.BraceFree(" DESC")
  {
    assert "table"[0] == 't';
    assert "field"[0] == 'f';
  }

  /** The quoted names, with nothing around them. */
  lemma LocalQuoted()
    ensures "\"" + "field_name" + "\"" + "" == "\"field_name\""
    ensures "\"" + "another_field" + "\"" + "" == "\"another_field\""
    ensures "" + ("\"" + "table_name" + "\"") + "" == "\"table_name\""
  {
  }

  lemma LocalConditions()
    ensures "\"" + "field_name" + "\"" + " = 1" == "\"field_name\" = 1"
    ensures "\"" + "another_field" + "\"" + " = 2" == "\"another_field\" = 2"
  {
  }

  lemma LocalOrders()
    ensures "\"" + "field_name" + "\"" + " ASC" == "\"field_name\" ASC"
    ensures "\"" + "another_field" + "\"" + " DESC" == "\"another_field\" DESC"
  {
  }

  /** The clauses of two-item sections, with the items left symbolic. */
  lemma SelectPair(a: string, b: string, c: string, e: string)
    ensures SelectClause([a, b], [c, e]) == "SELECT DISTINCT ON (" + a + ", " + b + ") " + c + ", " + e
  {
    JoinTwo(", ", a, b);
    JoinTwo(", ", c, e);
    DistinctSelect([a, b], [c, e], a + ", " + b, c + ", " + e);
  }

  lemma WherePair(a: string, b: string)
    ensures WhereClause([a, b]) == "WHERE (" + a + ") AND (" + b + ")"
  {
    JoinTwo(") AND (", a, b);
  }

  lemma ListPair(a: string, b: string)
    ensures GroupByClause([a, b]) == "GROUP BY " + a + ", " + b
    ensures OrderByClause([a, b]) == "ORDER BY " + a + ", " + b
  {
    JoinTwo(", ", a, b);
  }

  lemma FromOne(a: string)
    ensures FromClause([a]) == "FROM " + a
  {
  }

  /** Every section of the local-identifier query, rendered. */
  lemma LocalSections(q: Select)
    requires q.options == DefaultOptions
    requires q.fromItems == [Item("{table}", Global)]
    requires q.distinctOnItems == [Item("{field}", Global), Item("{field}", Shadowed)]
    requires q.selectItems == [Item("{field}", Global), Item("{field}", Shadowed)]
    requires q.whereItems == [Item("{field} = 1", Global), Item("{field} = 2", Shadowed)]
    requires q.orderByItems == [Item("{field} ASC", Global), Item("{field} DESC", Shadowed)]
    requires q.groupByItems == [Item("{field}", Global), Item("{field}", Shadowed)]
    ensures RenderSection(q.options, q.fromItems) == Ok(["" + ("\"" + "table_name" + "\"") + ""])
    ensures RenderSection(q.options, q.distinctOnItems) == Ok(["\"" + "field_name" + "\"" + "", "\"" + "another_field" + "\"" + ""])
    ensures RenderSection(q.options, q.selectItems) == Ok(["\"" + "field_name" + "\"" + "", "\"" + "another_field" + "\"" + ""])
    ensures RenderSection(q.options, q.groupByItems) == Ok(["\"" + "field_name" + "\"" + "", "\"" + "another_field" + "\"" + ""])
    ensures RenderSection(q.options, q.whereItems) == Ok(["\"" + "field_name" + "\"" + " = 1", "\"" + "another_field" + "\"" + " = 2"])
    ensures RenderSection(q.options, q.orderByItems) == Ok(["\"" + "field_name" + "\"" + " ASC", "\"" + "another_field" + "\"" + " DESC"])
  {
    var opts := q.options;
    var fn := "\"" + "field_name" + "\"";
    var af := "\"" + "another_field" + "\"";
    LocalTemplates();
    GlobalReplacements(Global);
    ShadowedReplacements(Shadowed);
    FieldThen(opts, q.fromItems[0], "table", "", "\"" + "table_name" + "\"");
    OneItem(opts, q.fromItems[0], "" + ("\"" + "table_name" + "\"") + "");
    FieldPair(opts, q.distinctOnItems, "field", "", Global, fn, "", Shadowed, af);
    FieldPair(opts, q.selectItems, "field", "", Global, fn, "", Shadowed, af);
    FieldPair(opts, q.groupByItems, "field", "", Global, fn, "", Shadowed, af);
    FieldPair(opts, q.whereItems, "field", " = 1", Global, fn, " = 2", Shadowed, af);
    FieldPair(opts, q.orderByItems, "field", " ASC", Global, fn, " DESC", Shadowed, af);
  }

  lemma LocalText(q: Select)
    requires q.options == DefaultOptions
    requires q.fromItems == [Item("{table}", Global)]
    requires q.distinctOnItems == [Item("{field}", Global), Item("{field}", Shadowed)]
    requires q.selectItems == [Item("{field}", Global), Item("{field}", Shadowed)]
    requires q.whereItems == [Item("{field} = 1", Global), Item("{field} = 2", Shadowed)]
    requires q.orderByItems == [Item("{field} ASC", Global), Item("{field} DESC", Shadowed)]
    requires q.groupByItems == [Item("{field}", Global), Item("{field}", Shadowed)]
    ensures ToSql(q) == Ok(
      ("SELECT DISTINCT ON (" + "\"field_name\"" + ", " + "\"another_field\"" + ") "
        + "\"field_name\"" + ", " + "\"another_field\"")
      + " " + ("FROM " + "\"table_name\"")
      + " " + ("WHERE (" + "\"field_name\" = 1" + ") AND (" + "\"another_field\" = 2" + ")")
      + " " + ("GROUP BY " + "\"field_name\"" + ", " + "\"another_field\"")
      + " " + ("ORDER BY " + "\"field_name\" ASC" + ", " + "\"another_field\" DESC"))
  {
    var fn := "\"field_name\"";
    var af := "\"another_field\"";
    LocalSections(q);
    LocalQuoted();
    LocalConditions();
    LocalOrders();
    SelectPair(fn, af, fn, af);
    FromOne("\"table_name\"");
    WherePair("\"field_name\" = 1", "\"another_field\" = 2");
    ListPair(fn, af);
    ListPair("\"field_name\" ASC", "\"another_field\" DESC");
    FiveClauses(q, [fn, af], [fn, af], ["\"table_name\""], ["\"field_name\" = 1", "\"another_field\" = 2"],
      [fn, af], ["\"field_name\" ASC", "\"another_field\" DESC"],
      SelectClause([fn, af], [fn, af]), FromClause(["\"table_name\""]),
      WhereClause(["\"field_name\" = 1", "\"another_field\" = 2"]), GroupByClause([fn, af]),
      OrderByClause(["\"field_name\" ASC", "\"another_field\" DESC"]));
  }

  /** test_local_identifier: in every section the first item quotes the
      builder's `field`, the second the local one that overrides it; the
      table comes from the builder. Each clause is written as its keyword,
      the rendered items and the separators between them. */
  lemma LocalIdentifierQuery()
    ensures ToSql(LocalIdentifier()) == Ok(
      ("SELECT DISTINCT ON (" + "\"field_name\"" + ", " + "\"another_field\"" + ") "
        + "\"field_name\"" + ", " + "\"another_field\"")
      + " " + ("FROM " + "\"table_name\"")
      + " " + ("WHERE (" + "\"field_name\" = 1" + ") AND (" + "\"another_field\" = 2" + ")")
      + " " + ("GROUP BY " + "\"field_name\"" + ", " + "\"another_field\"")
      + " " + ("ORDER BY " + "\"field_name\" ASC" + ", " + "\"another_field\" DESC"))
  {
    LocalBuilder();
    LocalText(LocalIdentifier());
  }
}
