/** Concrete calls of the three builders: the exact text they produce for
    typical input, and the error for input that must be refused. The quoting
    function is left symbolic, so these hold for any database. Several
    helper lemmas take the entity as a parameter fixed by a `requires`
    instead of naming the literal in their `ensures`: the verifier then
    unfolds the definitions once for that value rather than at every
    occurrence of the literal, which keeps each proof small. */
module SqlExamples {
  import opened Text
  import opened Wrappers
  import opened SqlEscape
  import opened SqlSpec

  /** `INTEGER PRIMARY KEY` is a DB_TYPE: capitals and spaces. */
  lemma IntegerPrimaryKey(t: string)
    requires t == "INTEGER PRIMARY KEY"
    ensures Matches(DbType, t)
  {
    assert DbTypeBody(t);
  }

  /** The `id` column: accepted, and defined as `` `id` INTEGER PRIMARY KEY``. */
  lemma IdColumn(p: ColumnSpec)
    requires p == ColumnSpec("id", "INTEGER PRIMARY KEY")
    ensures CheckColumnSpec(p) == Pass
    ensures ColumnDef(p) == "`id` INTEGER PRIMARY KEY"
  {
    IntegerPrimaryKey(p.dbType);
    assert Matches(Column, p.column) by { assert ColumnBody(p.column); }
    CheckColumnSpecMeaning(p);
  }

  /** The `title` column: accepted, and defined as `` `title` TEXT NOT NULL``. */
  lemma TitleColumn(p: ColumnSpec)
    requires p == ColumnSpec("title", "TEXT NOT NULL")
    ensures CheckColumnSpec(p) == Pass
    ensures ColumnDef(p) == "`title` TEXT NOT NULL"
  {
    assert Matches(DbType, p.dbType) by { assert DbTypeBody(p.dbType); }
    assert Matches(Column, p.column) by { assert ColumnBody(p.column); }
    CheckColumnSpecMeaning(p);
  }

  /** Both column definitions of the `posts` example pass their checks. */
  lemma PostsColumnsPass(props: seq<ColumnSpec>)
    requires props == [ColumnSpec("id", "INTEGER PRIMARY KEY"), ColumnSpec("title", "TEXT NOT NULL")]
    ensures FirstError(props, CheckColumnSpec) == Pass
  {
    IdColumn(props[0]);
    TitleColumn(props[1]);
    FirstErrorCharacterized(props, CheckColumnSpec);
  }

  /** The column list of the `posts` example. */
  lemma PostsColumnList(props: seq<ColumnSpec>)
    requires props == [ColumnSpec("id", "INTEGER PRIMARY KEY"), ColumnSpec("title", "TEXT NOT NULL")]
    ensures ColumnList(props) == "`id` INTEGER PRIMARY KEY" + ", " + "`title` TEXT NOT NULL"
  {
    IdColumn(props[0]);
    TitleColumn(props[1]);
    var defs := ColumnDefs(props);
    assert defs[0] == ColumnDef(props[0]) && defs[1] == ColumnDef(props[1]);
    assert Join(", ", defs[1..]) == defs[1];
  }

  /** Two columns, no foreign keys: one statement with both definitions in order. */
  lemma CreatePosts()
    ensures CreateSpec("posts", [ColumnSpec("id", "INTEGER PRIMARY KEY"), ColumnSpec("title", "TEXT NOT NULL")], None)
      == Ok("CREATE TABLE IF NOT EXISTS `posts` (" + ("`id` INTEGER PRIMARY KEY" + ", " + "`title` TEXT NOT NULL") + ");")
  {
    var props := [ColumnSpec("id", "INTEGER PRIMARY KEY"), ColumnSpec("title", "TEXT NOT NULL")];
    var cols := "`id` INTEGER PRIMARY KEY" + ", " + "`title` TEXT NOT NULL";
    PostsColumnsPass(props);
    PostsColumnList(props);
    assert ForeignKeysSpec(GivenKeys(None)) == Ok("");
    assert CreateHead("posts") == "CREATE TABLE IF NOT EXISTS `posts` (";
    assert CreateSpec("posts", props, None) == Ok(CreateHead("posts") + cols + "" + ");");
    assert CreateHead("posts") + cols + "" + ");" == "CREATE TABLE IF NOT EXISTS `posts` (" + cols + ");";
  }

  /** The single foreign key of the `comments` example passes its checks. */
  lemma CommentsKeyPasses(keys: seq<ForeignKey>)
    requires keys == [ForeignKey("posts", "id")]
    ensures FirstError(keys, CheckForeignKey) == Pass
  {
    assert CheckForeignKey(keys[0]) == Pass by {
      assert ColumnBody("id") && ColumnBody("posts");
    }
  }

  /** The column a key on `posts`.`id` adds. */
  lemma PostsIdKeyColumn()
    ensures ForeignKeyColumnDef(ForeignKey("posts", "id")) == "`posts_id` INTEGER NOT NULL"
  {
    assert ForeignKeyColumn(ForeignKey("posts", "id")) == "posts_id";
  }

  /** The constraint a key on `posts`.`id` adds. */
  lemma PostsIdKeyConstraint()
    ensures ForeignKeyConstraint(ForeignKey("posts", "id")) == "FOREIGN KEY(`posts_id`) REFERENCES `posts`(`id`)"
  {
    assert ForeignKeyColumn(ForeignKey("posts", "id")) == "posts_id";
  }

  /** The clause the `comments` example's foreign key adds: its column, then its constraint. */
  lemma CommentsKeyClause(keys: seq<ForeignKey>)
    requires keys == [ForeignKey("posts", "id")]
    ensures ForeignKeyList(keys)
      == ", " + "`posts_id` INTEGER NOT NULL" + ", " + "FOREIGN KEY(`posts_id`) REFERENCES `posts`(`id`)"
  {
    assert ForeignKeyList(keys) == ForeignKeyClause(keys[0]) by {
      assert keys[..0] == [];
    }
    PostsIdKeyColumn();
    PostsIdKeyConstraint();
  }

  /** The single column of the `comments` example is accepted. */
  lemma CommentsColumns(props: seq<ColumnSpec>)
    requires props == [ColumnSpec("id", "INTEGER PRIMARY KEY")]
    ensures PropsSpec(props) == Ok("`id` INTEGER PRIMARY KEY")
  {
    IdColumn(props[0]);
    FirstErrorCharacterized(props, CheckColumnSpec);
    var defs := ColumnDefs(props);
    assert defs == [ColumnDef(props[0])];
  }

  /** A foreign key adds an INTEGER NOT NULL column named `table_reference`
      and a constraint referring to the foreign table's column. */
  lemma CreateCommentsWithForeignKey()
    ensures CreateSpec("comments", [ColumnSpec("id", "INTEGER PRIMARY KEY")], Some([ForeignKey("posts", "id")]))
      == Ok("CREATE TABLE IF NOT EXISTS `comments` (" + "`id` INTEGER PRIMARY KEY"
            + (", " + "`posts_id` INTEGER NOT NULL" + ", " + "FOREIGN KEY(`posts_id`) REFERENCES `posts`(`id`)") + ");")
  {
    var props := [ColumnSpec("id", "INTEGER PRIMARY KEY")];
    var keys := [ForeignKey("posts", "id")];
    CommentsColumns(props);
    CommentsKeyPasses(keys);
    CommentsKeyClause(keys);
    assert CreateHead("comments") == "CREATE TABLE IF NOT EXISTS `comments` (";
  }

  /** With no columns and no foreign keys the statement has an empty body. */
  lemma CreateEmptyTable()
    ensures CreateSpec("t", [], None) == Ok("CREATE TABLE IF NOT EXISTS `t` (" + ");")
  {
    CreateWithoutColumns("t", None);
    assert CreateHead("t") == "CREATE TABLE IF NOT EXISTS `t` (";
  }

  /** A column name that would close its backticks is refused. */
  lemma CreateRefusesInjection()
    ensures CreateSpec("posts", [ColumnSpec("id`; DROP TABLE posts; --", "INTEGER")], None)
      == Err(InvalidValue("id`; DROP TABLE posts; --"))
  {
    assert !IsColumnChar("id`; DROP TABLE posts; --"[2]);
    assert DbTypeBody("INTEGER");
  }

  /** A lower-case type is refused, and it is reported although a later
      column name is bad too: the first failure in input order wins. */
  lemma CreateReportsFirstFailure()
    ensures CreateSpec("posts", [ColumnSpec("id", "text"), ColumnSpec("x;", "TEXT")], None)
      == Err(InvalidValue("text"))
  {
    assert !IsUpper("text"[0]);
  }

  /** `type = 'note'` under POST_TYPE passes its checks. */
  lemma TypeIsNote(c: Condition)
    requires c == Condition("type", "=", Scalar("note"), PatternText(PostType))
    ensures CheckCondition(c) == Pass
  {
    ParseEscapeText(PostType);
    assert Matches(Column, c.column) by { assert ColumnBody(c.column); }
    assert Matches(PostType, c.value.text) by { assert PostTypeBody(c.value.text); }
  }

  /** `slug IN ('a', 'b-c')` under SLUG passes its checks, element by element. */
  lemma SlugListAccepted(c: Condition)
    requires c == Condition("slug", "IN", List(["a", "b-c"]), PatternText(Slug))
    ensures CheckCondition(c) == Pass
  {
    var items := c.value.items;
    ParseEscapeText(Slug);
    assert Matches(Column, c.column) by { assert ColumnBody(c.column); }
    assert Matches(Slug, items[0]) && Matches(Slug, items[1]) by {
      assert SlugBody(items[0]) && SlugBody(items[1]);
    }
    FirstErrorCharacterized(items, Guard(Slug));
  }

  /** Both conditions of the `note` example pass their checks. */
  lemma NoteConditionsPass(cs: seq<Condition>)
    requires cs == [Condition("type", "=", Scalar("note"), PatternText(PostType)),
                    Condition("slug", "IN", List(["a", "b-c"]), PatternText(Slug))]
    ensures FirstError(cs, CheckCondition) == Pass
  {
    TypeIsNote(cs[0]);
    SlugListAccepted(cs[1]);
    FirstErrorCharacterized(cs, CheckCondition);
  }

  /** The conjuncts of the `note` example. */
  lemma NoteConjuncts(quote: string -> string, cs: seq<Condition>)
    requires cs == [Condition("type", "=", Scalar("note"), PatternText(PostType)),
                    Condition("slug", "IN", List(["a", "b-c"]), PatternText(Slug))]
    ensures Conjunct(quote, cs[0]) == " `type` = " + quote("note")
    ensures Conjunct(quote, cs[1]) == " `slug` IN " + ("(" + quote("a") + "," + quote("b-c") + ")")
  {
    var qs := QuoteAll(quote, cs[1].value.items);
    assert qs[0] == quote("a") && qs[1] == quote("b-c");
    assert Join(",", qs[1..]) == qs[1];
  }

  /** Two conjuncts: the first after ` WHERE`, the second after ` AND`. */
  lemma NoteWhereText(quote: string -> string, cs: seq<Condition>)
    requires |cs| == 2
    ensures WhereText(quote, cs) == " WHERE" + Conjunct(quote, cs[0]) + " AND" + Conjunct(quote, cs[1])
  {
    var js := Conjuncts(quote, cs);
    assert js[0] == Conjunct(quote, cs[0]) && js[1] == Conjunct(quote, cs[1]);
    assert Join(" AND", js[1..]) == js[1];
    assert " WHERE" + (js[0] + " AND" + js[1]) == " WHERE" + js[0] + " AND" + js[1];
  }

  /** The first condition opens with WHERE, the next with AND; an array
      value becomes a parenthesised list of quoted elements. */
  lemma WhereTwoConditions(quote: string -> string)
    ensures WhereSpec(quote, [Condition("type", "=", Scalar("note"), PatternText(PostType)),
                              Condition("slug", "IN", List(["a", "b-c"]), PatternText(Slug))])
      == Ok(" WHERE" + (" `type` = " + quote("note"))
            + " AND" + (" `slug` IN " + ("(" + quote("a") + "," + quote("b-c") + ")")))
  {
    var cs := [Condition("type", "=", Scalar("note"), PatternText(PostType)),
               Condition("slug", "IN", List(["a", "b-c"]), PatternText(Slug))];
    NoteConditionsPass(cs);
    NoteConjuncts(quote, cs);
    NoteWhereText(quote, cs);
  }

  /** An operator outside the eight aborts the clause. */
  lemma WhereRefusesOperator(quote: string -> string)
    ensures WhereSpec(quote, [Condition("id", "OR", Scalar("1"), PatternText(Unchecked))])
      == Err(InvalidOperator("OR"))
  {
  }

  /** A pattern that is not one of the escape constants aborts the clause. */
  lemma WhereRefusesEscape(quote: string -> string)
    ensures WhereSpec(quote, [Condition("id", "=", Scalar("1"), "/^.*$/")])
      == Err(InvalidEscape("/^.*$/"))
  {
    assert ParseEscape("/^.*$/") == None;
  }

  /** An array value under SLUG with an element holding a quote and spaces
      fails on that element. */
  lemma SlugListRefused(c: Condition)
    requires c == Condition("slug", "IN", List(["ok", "x' OR 1=1"]), PatternText(Slug))
    ensures CheckCondition(c) == Fail(InvalidValue("x' OR 1=1"))
  {
    var items := c.value.items;
    ParseEscapeText(Slug);
    assert Matches(Column, c.column) by { assert ColumnBody(c.column); }
    assert Matches(Slug, items[0]) by { assert SlugBody(items[0]); }
    assert !Matches(Slug, items[1]) by {
      assert !IsSlugChar(items[1][1]) && items[1][|items[1]| - 1] != '\n';
    }
    assert FirstError(items[1..], Guard(Slug)) == Fail(InvalidValue(items[1]));
  }

  /** One element of an array value that fails its escape aborts the whole
      clause, even after an accepted condition. */
  lemma WhereRefusesElement(quote: string -> string)
    ensures WhereSpec(quote, [Condition("type", "=", Scalar("note"), PatternText(PostType)),
                              Condition("slug", "IN", List(["ok", "x' OR 1=1"]), PatternText(Slug))])
      == Err(InvalidValue("x' OR 1=1"))
  {
    var cs := [Condition("type", "=", Scalar("note"), PatternText(PostType)),
               Condition("slug", "IN", List(["ok", "x' OR 1=1"]), PatternText(Slug))];
    TypeIsNote(cs[0]);
    SlugListRefused(cs[1]);
    assert FirstError(cs[1..], CheckCondition) == CheckCondition(cs[1]);
  }

  /** The key is a COLUMN name and the value matches the escape the key selects. */
  lemma EntryAccepted(en: Entry, e: Escape)
    requires ColumnBody(en.key) && PolicyFor(en.key) == e && Matches(e, en.value)
    ensures CheckEntry(en) == Pass
  {
    CheckEntryMeaning(en);
  }

  /** `type => note`: checked against POST_TYPE. */
  lemma TypeEntry(en: Entry)
    requires en == Entry("type", "note")
    ensures PolicyFor(en.key) == PostType && CheckEntry(en) == Pass
  {
    assert ColumnBody(en.key) && PostTypeBody(en.value);
    EntryAccepted(en, PostType);
  }

  /** `tags => a,b`: checked against TAG, which lets the comma through. */
  lemma TagsEntry(en: Entry)
    requires en == Entry("tags", "a,b")
    ensures PolicyFor(en.key) == Tag && CheckEntry(en) == Pass
  {
    assert ColumnBody(en.key) && TagBody(en.value);
    EntryAccepted(en, Tag);
  }

  /** `slug => my-post`: checked against SLUG. */
  lemma SlugEntry(en: Entry)
    requires en == Entry("slug", "my-post")
    ensures PolicyFor(en.key) == Slug && CheckEntry(en) == Pass
  {
    assert ColumnBody(en.key) && SlugBody(en.value);
    EntryAccepted(en, Slug);
  }

  /** `title => Hello`: any other column is checked against NONE. */
  lemma TitleEntry(en: Entry)
    requires en == Entry("title", "Hello")
    ensures PolicyFor(en.key) == Unchecked && CheckEntry(en) == Pass
  {
    assert ColumnBody(en.key);
    EntryAccepted(en, Unchecked);
  }

  /** Every entry of the `note` example row passes the check its column selects. */
  lemma NoteRowPasses(row: seq<Entry>)
    requires row == [Entry("type", "note"), Entry("tags", "a,b"), Entry("slug", "my-post"), Entry("title", "Hello")]
    ensures FirstError(row, CheckEntry) == Pass
  {
    TypeEntry(row[0]);
    TagsEntry(row[1]);
    SlugEntry(row[2]);
    TitleEntry(row[3]);
    FirstErrorCharacterized(row, CheckEntry);
  }

  /** The column list of the `note` example row. */
  lemma NoteRowKeys(row: seq<Entry>)
    requires row == [Entry("type", "note"), Entry("tags", "a,b"), Entry("slug", "my-post"), Entry("title", "Hello")]
    ensures Join(",", QuotedKeys(row)) == "`type`" + "," + "`tags`" + "," + "`slug`" + "," + "`title`"
  {
    var ks := QuotedKeys(row);
    assert ks[0] == "`type`" && ks[1] == "`tags`" && ks[2] == "`slug`" && ks[3] == "`title`";
    assert Join(",", ks[3..]) == ks[3];
    assert Join(",", ks[2..]) == ks[2] + "," + Join(",", ks[3..]) by { assert ks[2..][1..] == ks[3..]; }
    assert Join(",", ks[1..]) == ks[1] + "," + Join(",", ks[2..]) by { assert ks[1..][1..] == ks[2..]; }
  }

  /** The value list of the `note` example row. */
  lemma NoteRowValues(quote: string -> string, row: seq<Entry>)
    requires row == [Entry("type", "note"), Entry("tags", "a,b"), Entry("slug", "my-post"), Entry("title", "Hello")]
    ensures Join(",", QuotedValues(quote, row))
      == quote("note") + "," + quote("a,b") + "," + quote("my-post") + "," + quote("Hello")
  {
    var vs := QuotedValues(quote, row);
    assert vs[0] == quote("note") && vs[1] == quote("a,b") && vs[2] == quote("my-post") && vs[3] == quote("Hello");
    assert Join(",", vs[3..]) == vs[3];
    assert Join(",", vs[2..]) == vs[2] + "," + Join(",", vs[3..]) by { assert vs[2..][1..] == vs[3..]; }
    assert Join(",", vs[1..]) == vs[1] + "," + Join(",", vs[2..]) by { assert vs[1..][1..] == vs[2..]; }
  }

  /** Each well-known column is checked against its own escape and every
      other column against NONE; the accepted row lists its columns and
      its quoted values in input order. */
  lemma InsertPolicyBinding(quote: string -> string)
    ensures InsertSpec(quote, [Entry("type", "note"), Entry("tags", "a,b"), Entry("slug", "my-post"), Entry("title", "Hello")])
      == Ok(" (" + ("`type`" + "," + "`tags`" + "," + "`slug`" + "," + "`title`") + ") VALUES ("
            + (quote("note") + "," + quote("a,b") + "," + quote("my-post") + "," + quote("Hello")) + ")")
  {
    var row := [Entry("type", "note"), Entry("tags", "a,b"), Entry("slug", "my-post"), Entry("title", "Hello")];
    NoteRowPasses(row);
    NoteRowKeys(row);
    NoteRowValues(quote, row);
  }

  /** One value that fails the escape its column selects refuses the whole row. */
  lemma InsertRefusesBadType(quote: string -> string)
    ensures InsertSpec(quote, [Entry("title", "Hello"), Entry("type", "123")]) == Err(InvalidValue("123"))
  {
    var row := [Entry("title", "Hello"), Entry("type", "123")];
    assert CheckEntry(row[0]) == Pass by { assert ColumnBody("title"); }
    assert CheckEntry(row[1]) == Fail(InvalidValue("123")) by {
      assert ColumnBody("type") && !IsLower("123"[0]);
    }
  }

  /** An empty row still yields both parenthesised lists, empty. */
  lemma InsertEmpty(quote: string -> string)
    ensures InsertSpec(quote, []) == Ok(" () VALUES ()")
  {
    assert QuotedKeys([]) == [] && QuotedValues(quote, []) == [];
    assert Join(",", []) == "";
    assert " (" + "" + ") VALUES (" + "" + ")" == " () VALUES ()";
  }
}
