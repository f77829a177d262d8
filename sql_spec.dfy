/** What the SQL helper computes, stated as functions: the check every entry
    must pass, the first failing check of a list, and the exact text of the
    three fragments (`create`, `where`, `insert`). The loops of the `Sql`
    class are proved equal to these functions; the lemmas here state what
    the fragments mean. */
module SqlSpec {
  import opened Text
  import opened Wrappers
  import opened SqlEscape

  /** The exceptions the helper throws; each carries the offending text. */
  datatype Error =
    | InvalidValue(value: string)        // regex_test: the value does not match
    | InvalidOperator(operator: string)  // not one of the SQLOP values
    | InvalidEscape(escape: string)      // not one of the SQLEscape values

  /** A check passes silently or fails with an error. */
  datatype Outcome = Pass | Fail(error: Error)
  {
    /** The next check, run only when this one passed: the first failure wins. */
    function Then(next: Outcome): Outcome
    {
      if Fail? then this else next
    }
  }

  /** A fragment of SQL text, or the error that aborted building it. */
  datatype Result<T> = Ok(value: T) | Err(error: Error)

  /** `SQL::regex_test`: fails, naming the value, exactly when the value does
      not match the pattern; NONE lets everything through. */
  function RegexTest(e: Escape, s: string): (r: Outcome)
    ensures r == Pass <==> Matches(e, s)
    ensures r.Fail? ==> r.error == InvalidValue(s)
    ensures e == Unchecked ==> r == Pass
  {
    if Matches(e, s) then Pass else Fail(InvalidValue(s))
  }

  /** `regex_test` with its pattern fixed, as applied to each element of an array value. */
  function Guard(e: Escape): string -> Outcome
  {
    s => RegexTest(e, s)
  }

  // Fail-fast iteration

  /** The outcome of checking the items one after another, stopping at the
      first failure. */
  function FirstError<T>(xs: seq<T>, check: T -> Outcome): Outcome
    decreases |xs|
  {
    if xs == [] then Pass
    else if check(xs[0]).Fail? then check(xs[0])
    else FirstError(xs[1..], check)
  }

  /** Once a prefix has passed, the outcome is decided by the rest. */
  lemma {:induction false} FirstErrorSkip<T>(xs: seq<T>, i: nat, check: T -> Outcome)
    requires i <= |xs| && FirstError(xs[..i], check) == Pass
    ensures FirstError(xs, check) == FirstError(xs[i..], check)
    decreases i
  {
    if i > 0 {
      assert xs[..i][0] == xs[0];
      assert xs[..i][1..] == xs[1..][..i - 1];
      FirstErrorSkip(xs[1..], i - 1, check);
      assert xs[1..][i - 1..] == xs[i..];
    }
  }

  /** One step of a fail-fast loop: after a passing prefix, the next item
      either passes too or its failure is the outcome of the whole list. */
  lemma FirstErrorStep<T>(xs: seq<T>, i: nat, check: T -> Outcome)
    requires i < |xs| && FirstError(xs[..i], check) == Pass
    ensures FirstError(xs[..i + 1], check) == check(xs[i])
    ensures check(xs[i]).Fail? ==> FirstError(xs, check) == check(xs[i])
  {
    assert xs[..i + 1][..i] == xs[..i];
    FirstErrorSkip(xs[..i + 1], i, check);
    assert xs[..i + 1][i..] == [xs[i]];
    FirstErrorSkip(xs, i, check);
  }

  /** A list passes exactly when every item passes, and a failure is that of
      the first item that fails. */
  lemma {:induction false} FirstErrorCharacterized<T>(xs: seq<T>, check: T -> Outcome)
    ensures FirstError(xs, check) == Pass <==> forall i | 0 <= i < |xs| :: check(xs[i]) == Pass
    ensures FirstError(xs, check).Fail? ==>
      exists k | 0 <= k < |xs| :: check(xs[k]) == FirstError(xs, check)
        && forall j | 0 <= j < k :: check(xs[j]) == Pass
    decreases |xs|
  {
    if xs != [] {
      FirstErrorCharacterized(xs[1..], check);
      if check(xs[0]).Fail? {
        assert check(xs[0]) == FirstError(xs, check);
      } else {
        assert forall i | 1 <= i < |xs| :: xs[i] == xs[1..][i - 1];
        if FirstError(xs, check).Fail? {
          var k :| 0 <= k < |xs[1..]| && check(xs[1..][k]) == FirstError(xs[1..], check)
            && forall j | 0 <= j < k :: check(xs[1..][j]) == Pass;
          assert check(xs[k + 1]) == FirstError(xs, check);
        }
      }
    }
  }

  // The entities handed to the builder

  /** A column of a new table: its name and its type with modifiers. */
  datatype ColumnSpec = ColumnSpec(column: string, dbType: string)

  /** A foreign key: the table referred to and the column referred to there. */
  datatype ForeignKey = ForeignKey(table: string, reference: string)

  /** The value of a WHERE condition: one string or an array of strings. */
  datatype Value = Scalar(text: string) | List(items: seq<string>)

  /** One conjunct of a WHERE clause; the operator and the escape are given
      as text and checked against the constant sets. */
  datatype Condition = Condition(column: string, operator: string, value: Value, escape: string)

  /** One column => value pair of an INSERT, in the order given. */
  datatype Entry = Entry(key: string, value: string)

  // create

  /** A column's type must be a DB_TYPE, then its name a COLUMN. */
  function CheckColumnSpec(p: ColumnSpec): Outcome
  {
    RegexTest(DbType, p.dbType).Then(RegexTest(Column, p.column))
  }

  /** A foreign key's table and then its reference must be COLUMN names. */
  function CheckForeignKey(k: ForeignKey): Outcome
  {
    RegexTest(Column, k.table).Then(RegexTest(Column, k.reference))
  }

  /** A column spec passes exactly when its type is a DB_TYPE and its name
      a COLUMN; a bad type is reported before a bad name. */
  lemma CheckColumnSpecMeaning(p: ColumnSpec)
    ensures CheckColumnSpec(p) == Pass <==> Matches(DbType, p.dbType) && Matches(Column, p.column)
    ensures !Matches(DbType, p.dbType) ==> CheckColumnSpec(p) == Fail(InvalidValue(p.dbType))
    ensures Matches(DbType, p.dbType) && !Matches(Column, p.column) ==> CheckColumnSpec(p) == Fail(InvalidValue(p.column))
  {
  }

  /** A foreign key passes exactly when its table and its reference are
      COLUMN names; a bad table is reported before a bad reference. */
  lemma CheckForeignKeyMeaning(k: ForeignKey)
    ensures CheckForeignKey(k) == Pass <==> Matches(Column, k.table) && Matches(Column, k.reference)
    ensures !Matches(Column, k.table) ==> CheckForeignKey(k) == Fail(InvalidValue(k.table))
    ensures Matches(Column, k.table) && !Matches(Column, k.reference) ==> CheckForeignKey(k) == Fail(InvalidValue(k.reference))
  {
  }

  /** `` `column` TYPE `` */
  function ColumnDef(p: ColumnSpec): string
  {
    "`" + p.column + "` " + p.dbType
  }

  function ColumnDefs(props: seq<ColumnSpec>): (defs: seq<string>)
    ensures |defs| == |props|
  {
    seq(|props|, i requires 0 <= i < |props| => ColumnDef(props[i]))
  }

  /** The column definitions in input order, separated by `, `. */
  function ColumnList(props: seq<ColumnSpec>): string
  {
    Join(", ", ColumnDefs(props))
  }

  /** What `propsToString` returns. */
  function PropsSpec(props: seq<ColumnSpec>): Result<string>
  {
    match FirstError(props, CheckColumnSpec)
    case Fail(e) => Err(e)
    case Pass => Ok(ColumnList(props))
  }

  /** The local column a foreign key adds: `table_reference`. */
  function ForeignKeyColumn(k: ForeignKey): string
  {
    k.table + "_" + k.reference
  }

  /** The column definition a foreign key adds. */
  function ForeignKeyColumnDef(k: ForeignKey): string
  {
    "`" + ForeignKeyColumn(k) + "` INTEGER NOT NULL"
  }

  /** The constraint a foreign key adds. */
  function ForeignKeyConstraint(k: ForeignKey): string
  {
    "FOREIGN KEY(`" + ForeignKeyColumn(k) + "`) REFERENCES `" + k.table + "`(`" + k.reference + "`)"
  }

  /** What one foreign key appends to the statement. */
  function ForeignKeyClause(k: ForeignKey): string
  {
    ", " + ForeignKeyColumnDef(k) + ", " + ForeignKeyConstraint(k)
  }

  /** The clauses of all the foreign keys, in input order. */
  function ForeignKeyList(keys: seq<ForeignKey>): string
    decreases |keys|
  {
    if keys == [] then "" else ForeignKeyList(keys[..|keys| - 1]) + ForeignKeyClause(keys[|keys| - 1])
  }

  /** What `foreignKeyToString` returns. */
  function ForeignKeysSpec(keys: seq<ForeignKey>): Result<string>
  {
    match FirstError(keys, CheckForeignKey)
    case Fail(e) => Err(e)
    case Pass => Ok(ForeignKeyList(keys))
  }

  /** The foreign keys `create` takes into account: none when the argument is
      null or an empty array (PHP's `$foreign_keys != null`). */
  function GivenKeys(fks: Option<seq<ForeignKey>>): seq<ForeignKey>
  {
    match fks
    case None => []
    case Some(keys) => keys
  }

  /** The start of every CREATE statement; the table name goes in unchecked. */
  function CreateHead(table: string): string
  {
    "CREATE TABLE IF NOT EXISTS `" + table + "` ("
  }

  /** What `create` returns: the columns are checked first, then the foreign keys. */
  function CreateSpec(table: string, props: seq<ColumnSpec>, fks: Option<seq<ForeignKey>>): Result<string>
  {
    match PropsSpec(props)
    case Err(e) => Err(e)
    case Ok(columns) =>
      match ForeignKeysSpec(GivenKeys(fks))
      case Err(e) => Err(e)
      case Ok(keys) => Ok(CreateHead(table) + columns + keys + ");")
  }

  /** The table elements of a CREATE statement in order: the column
      definitions, then for each foreign key its column and its constraint. */
  function TableElements(props: seq<ColumnSpec>, keys: seq<ForeignKey>): seq<string>
    decreases |keys|
  {
    if keys == [] then ColumnDefs(props)
    else
      var last := keys[|keys| - 1];
      TableElements(props, keys[..|keys| - 1]) + [ForeignKeyColumnDef(last), ForeignKeyConstraint(last)]
  }

  lemma ColumnListSnoc(props: seq<ColumnSpec>, i: nat)
    requires i < |props|
    ensures ColumnList(props[..i + 1]) == ColumnList(props[..i]) + (if i == 0 then "" else ", ") + ColumnDef(props[i])
  {
    assert ColumnDefs(props[..i + 1]) == ColumnDefs(props[..i]) + [ColumnDef(props[i])];
    JoinSnoc(", ", ColumnDefs(props[..i]), ColumnDef(props[i]));
  }

  lemma ForeignKeyListSnoc(keys: seq<ForeignKey>, i: nat)
    requires i < |keys|
    ensures ForeignKeyList(keys[..i + 1]) == ForeignKeyList(keys[..i]) + ForeignKeyClause(keys[i])
  {
    assert keys[..i + 1][..i] == keys[..i];
  }

  /** The text between the parentheses is the join of the table elements. */
  lemma {:induction false} CreateBodyJoin(props: seq<ColumnSpec>, keys: seq<ForeignKey>)
    requires |props| > 0
    ensures ColumnList(props) + ForeignKeyList(keys) == Join(", ", TableElements(props, keys))
    decreases |keys|
  {
    if keys != [] {
      var init, last := keys[..|keys| - 1], keys[|keys| - 1];
      var before, column, constraint := TableElements(props, init), ForeignKeyColumnDef(last), ForeignKeyConstraint(last);
      assert |before| >= |props| > 0 by { TableElementsLength(props, init); }
      CreateBodyJoin(props, init);
      JoinPair(", ", before, column, constraint);
    }
  }

  lemma {:induction false} TableElementsLength(props: seq<ColumnSpec>, keys: seq<ForeignKey>)
    ensures |TableElements(props, keys)| == |props| + 2 * |keys|
    decreases |keys|
  {
    if keys != [] {
      TableElementsLength(props, keys[..|keys| - 1]);
    }
  }

  /** No table element of an accepted statement holds a comma. */
  lemma {:induction false} TableElementsCommaFree(props: seq<ColumnSpec>, keys: seq<ForeignKey>)
    requires forall i | 0 <= i < |props| :: CheckColumnSpec(props[i]) == Pass
    requires forall j | 0 <= j < |keys| :: CheckForeignKey(keys[j]) == Pass
    ensures forall i | 0 <= i < |TableElements(props, keys)| :: ',' !in TableElements(props, keys)[i]
    decreases |keys|
  {
    if keys == [] {
      forall i | 0 <= i < |props| ensures ',' !in ColumnDef(props[i]) {
        ColumnCharacters(props[i].column);
        DbTypeCharacters(props[i].dbType);
      }
    } else {
      var init, last := keys[..|keys| - 1], keys[|keys| - 1];
      TableElementsCommaFree(props, init);
      assert CheckForeignKey(last) == Pass;
      ColumnCharacters(last.table);
      ColumnCharacters(last.reference);
      assert ',' !in ForeignKeyColumnDef(last);
      assert ',' !in ForeignKeyConstraint(last);
    }
  }

  /** `create` fails exactly when some column spec or some given foreign key
      fails its checks; the table name plays no part in it. */
  lemma CreateRejects(table: string, props: seq<ColumnSpec>, fks: Option<seq<ForeignKey>>)
    ensures CreateSpec(table, props, fks).Err? <==>
      (exists i | 0 <= i < |props| :: CheckColumnSpec(props[i]).Fail?)
      || (exists j | 0 <= j < |GivenKeys(fks)| :: CheckForeignKey(GivenKeys(fks)[j]).Fail?)
    ensures forall other: string :: CreateSpec(other, props, fks).Err? == CreateSpec(table, props, fks).Err?
  {
    FirstErrorCharacterized(props, CheckColumnSpec);
    FirstErrorCharacterized(GivenKeys(fks), CheckForeignKey);
  }

  /** An accepted CREATE statement reads back unambiguously: after the fixed
      head and before the closing `);`, splitting at `, ` gives the column
      definitions in input order followed by each foreign key's column and
      constraint, in input order. */
  lemma CreateParses(table: string, props: seq<ColumnSpec>, fks: Option<seq<ForeignKey>>)
    requires |props| > 0 && CreateSpec(table, props, fks).Ok?
    ensures var s, head := CreateSpec(table, props, fks).value, CreateHead(table);
      |head| + 2 <= |s| && s[..|head|] == head && s[|s| - 2..] == ");"
      && Split(s[|head|..|s| - 2], ", ") == TableElements(props, GivenKeys(fks))
  {
    var keys := GivenKeys(fks);
    var s, head := CreateSpec(table, props, fks).value, CreateHead(table);
    var body := ColumnList(props) + ForeignKeyList(keys);
    assert s == head + body + ");";
    assert s[..|head|] == head && s[|head|..|s| - 2] == body;
    FirstErrorCharacterized(props, CheckColumnSpec);
    FirstErrorCharacterized(keys, CheckForeignKey);
    CreateBodyJoin(props, keys);
    TableElementsCommaFree(props, keys);
    TableElementsLength(props, keys);
    SplitJoin(", ", TableElements(props, keys));
  }

  /** Every non-empty list of foreign-key clauses starts with `, `. */
  lemma {:induction false} ForeignKeyListStart(keys: seq<ForeignKey>)
    requires keys != []
    ensures |ForeignKeyList(keys)| >= 2 && ForeignKeyList(keys)[..2] == ", "
    decreases |keys|
  {
    var init := keys[..|keys| - 1];
    if init != [] {
      ForeignKeyListStart(init);
    }
  }

  /** `create` does not require a column: with none, the head is followed
      directly by the foreign-key clauses, so a statement with keys reads
      `(, ` and one without keys reads `();`. */
  lemma CreateWithoutColumns(table: string, fks: Option<seq<ForeignKey>>)
    requires FirstError(GivenKeys(fks), CheckForeignKey) == Pass
    ensures CreateSpec(table, [], fks) == Ok(CreateHead(table) + ForeignKeyList(GivenKeys(fks)) + ");")
    ensures GivenKeys(fks) != [] ==>
      var s := CreateSpec(table, [], fks).value;
      |s| >= |CreateHead(table)| + 2 && s[|CreateHead(table)|..|CreateHead(table)| + 2] == ", "
    ensures GivenKeys(fks) == [] ==> CreateSpec(table, [], fks) == Ok(CreateHead(table) + ");")
  {
    var head, keys := CreateHead(table), ForeignKeyList(GivenKeys(fks));
    NoColumnsText(table, fks);
    if GivenKeys(fks) == [] {
      assert head + keys + ");" == head + ");";
    } else {
      ForeignKeyListStart(GivenKeys(fks));
    }
  }

  /** The text of `create` with no columns. */
  lemma NoColumnsText(table: string, fks: Option<seq<ForeignKey>>)
    requires FirstError(GivenKeys(fks), CheckForeignKey) == Pass
    ensures CreateSpec(table, [], fks) == Ok(CreateHead(table) + ForeignKeyList(GivenKeys(fks)) + ");")
  {
    assert ColumnDefs([]) == [];
    assert PropsSpec([]) == Ok("");
    var head, keys := CreateHead(table), ForeignKeyList(GivenKeys(fks));
    assert ForeignKeysSpec(GivenKeys(fks)) == Ok(keys);
    assert head + "" + keys + ");" == head + keys + ");";
  }

  // where

  /** The value, or each element of an array value, must match the escape. */
  function CheckValue(e: Escape, v: Value): Outcome
  {
    match v
    case Scalar(s) => RegexTest(e, s)
    case List(items) => FirstError(items, Guard(e))
  }

  /** The checks of one condition, in the order the helper makes them:
      operator, escape, column, then the value. */
  function CheckCondition(c: Condition): Outcome
  {
    match ParseOp(c.operator)
    case None => Fail(InvalidOperator(c.operator))
    case Some(_) =>
      match ParseEscape(c.escape)
      case None => Fail(InvalidEscape(c.escape))
      case Some(e) => RegexTest(Column, c.column).Then(CheckValue(e, c.value))
  }

  function QuoteAll(quote: string -> string, items: seq<string>): (qs: seq<string>)
    ensures |qs| == |items|
  {
    seq(|items|, i requires 0 <= i < |items| => quote(items[i]))
  }

  /** The right-hand side: the quoted value, or the quoted elements in
      parentheses whatever the operator. */
  function Operand(quote: string -> string, v: Value): string
  {
    match v
    case Scalar(s) => quote(s)
    case List(items) => "(" + Join(",", QuoteAll(quote, items)) + ")"
  }

  /** `` `column` OP operand``, with its leading space. */
  function Conjunct(quote: string -> string, c: Condition): string
  {
    " `" + c.column + "` " + c.operator + " " + Operand(quote, c.value)
  }

  function Conjuncts(quote: string -> string, cs: seq<Condition>): (r: seq<string>)
    ensures |r| == |cs|
  {
    seq(|cs|, i requires 0 <= i < |cs| => Conjunct(quote, cs[i]))
  }

  /** The conjuncts in input order, the first after ` WHERE` and every
      other after ` AND`; nothing for no conditions. */
  function WhereText(quote: string -> string, cs: seq<Condition>): string
  {
    if cs == [] then "" else " WHERE" + Join(" AND", Conjuncts(quote, cs))
  }

  /** What `where` returns. */
  function WhereSpec(quote: string -> string, cs: seq<Condition>): Result<string>
  {
    match FirstError(cs, CheckCondition)
    case Fail(e) => Err(e)
    case Pass => Ok(WhereText(quote, cs))
  }

  lemma ConjunctsSnoc(quote: string -> string, cs: seq<Condition>, i: nat)
    requires i < |cs|
    ensures Conjuncts(quote, cs[..i + 1]) == Conjuncts(quote, cs[..i]) + [Conjunct(quote, cs[i])]
  {
    var before, after := Conjuncts(quote, cs[..i]), Conjuncts(quote, cs[..i + 1]);
    assert forall j | 0 <= j < i :: after[j] == before[j];
  }

  /** Each further condition appends one ` AND` and its conjunct; the first
      one appends ` WHERE` instead. */
  lemma WhereTextSnoc(quote: string -> string, cs: seq<Condition>, i: nat)
    requires i < |cs|
    ensures WhereText(quote, cs[..i + 1]) ==
      WhereText(quote, cs[..i]) + (if i == 0 then " WHERE" else " AND") + Conjunct(quote, cs[i])
  {
    var before, next := Conjuncts(quote, cs[..i]), Conjunct(quote, cs[i]);
    ConjunctsSnoc(quote, cs, i);
    JoinSnoc(" AND", before, next);
    assert |before| == i;
  }

  /** An accepted WHERE clause grows by one conjunct per accepted condition. */
  lemma WhereExtend(quote: string -> string, cs: seq<Condition>, i: nat)
    requires i < |cs| && WhereSpec(quote, cs[..i]).Ok? && CheckCondition(cs[i]) == Pass
    ensures WhereSpec(quote, cs[..i + 1]) ==
      Ok(WhereSpec(quote, cs[..i]).value + (if i == 0 then " WHERE" else " AND") + Conjunct(quote, cs[i]))
  {
    FirstErrorStep(cs, i, CheckCondition);
    WhereTextSnoc(quote, cs, i);
  }

  /** `where` fails exactly when some condition fails its checks. */
  lemma WhereRejects(quote: string -> string, cs: seq<Condition>)
    ensures WhereSpec(quote, cs).Err? <==> exists i | 0 <= i < |cs| :: CheckCondition(cs[i]).Fail?
  {
    FirstErrorCharacterized(cs, CheckCondition);
  }

  /** In an accepted WHERE clause every identifier is a COLUMN name (so it
      cannot close its backticks or end the statement), every operator is
      one of the eight, and every value matched the named escape. */
  lemma WhereAcceptsOnlyChecked(quote: string -> string, cs: seq<Condition>, i: nat)
    requires WhereSpec(quote, cs).Ok? && i < |cs|
    ensures Matches(Column, cs[i].column)
    ensures '`' !in cs[i].column && '\'' !in cs[i].column && ';' !in cs[i].column
    ensures ParseOp(cs[i].operator).Some? && ParseEscape(cs[i].escape).Some?
    ensures cs[i].value.Scalar? ==> Matches(ParseEscape(cs[i].escape).value, cs[i].value.text)
    ensures cs[i].value.List? ==>
      forall j | 0 <= j < |cs[i].value.items| :: Matches(ParseEscape(cs[i].escape).value, cs[i].value.items[j])
  {
    FirstErrorCharacterized(cs, CheckCondition);
    var c := cs[i];
    assert CheckCondition(c) == Pass;
    ColumnCharacters(c.column);
    if c.value.List? {
      FirstErrorCharacterized(c.value.items, Guard(ParseEscape(c.escape).value));
    }
  }

  // insert

  /** The escape an inserted value is checked against, chosen by its column. */
  function PolicyFor(key: string): Escape
  {
    if key == "type" then PostType
    else if key == "tags" then Tag
    else if key == "slug" then Slug
    else if key == "published" || key == "updated" then Iso8601
    else Unchecked
  }

  /** The binding of columns to escapes: each of the five named columns
      selects its own escape, compared by exact text, and every other
      column is left unchecked; COLUMN, DB_TYPE and ORDER_DIRECTION are
      never chosen. */
  lemma PolicyBinding(key: string)
    ensures PolicyFor(key) == PostType <==> key == "type"
    ensures PolicyFor(key) == Tag <==> key == "tags"
    ensures PolicyFor(key) == Slug <==> key == "slug"
    ensures PolicyFor(key) == Iso8601 <==> key == "published" || key == "updated"
    ensures PolicyFor(key) == Unchecked <==> key !in ["type", "tags", "slug", "published", "updated"]
    ensures PolicyFor(key) !in [Column, DbType, OrderDirection]
  {
  }

  /** The key must be a COLUMN name, then the value must match its column's escape. */
  function CheckEntry(en: Entry): Outcome
  {
    RegexTest(Column, en.key).Then(RegexTest(PolicyFor(en.key), en.value))
  }

  /** An entry passes exactly when its key is a COLUMN name and its value
      matches the escape the key selects; a bad key is reported first. */
  lemma CheckEntryMeaning(en: Entry)
    ensures CheckEntry(en) == Pass <==> Matches(Column, en.key) && Matches(PolicyFor(en.key), en.value)
    ensures !Matches(Column, en.key) ==> CheckEntry(en) == Fail(InvalidValue(en.key))
    ensures Matches(Column, en.key) && !Matches(PolicyFor(en.key), en.value) ==> CheckEntry(en) == Fail(InvalidValue(en.value))
  {
  }

  function QuotedKeys(row: seq<Entry>): (ks: seq<string>)
    ensures |ks| == |row|
  {
    seq(|row|, i requires 0 <= i < |row| => "`" + row[i].key + "`")
  }

  function QuotedValues(quote: string -> string, row: seq<Entry>): (vs: seq<string>)
    ensures |vs| == |row|
  {
    seq(|row|, i requires 0 <= i < |row| => quote(row[i].value))
  }

  /** What `insert` returns: the backticked columns and the quoted values,
      each list comma-separated in input order. */
  function InsertSpec(quote: string -> string, row: seq<Entry>): Result<string>
  {
    match FirstError(row, CheckEntry)
    case Fail(e) => Err(e)
    case Pass => Ok(" (" + Join(",", QuotedKeys(row)) + ") VALUES (" + Join(",", QuotedValues(quote, row)) + ")")
  }

  /** One more entry extends both comma-terminated lists by one item. */
  lemma InsertListsSnoc(quote: string -> string, row: seq<Entry>, i: nat, keys: string, values: string)
    requires i < |row|
    requires keys == Join(",", QuotedKeys(row[..i])) + (if i == 0 then "" else ",")
    requires values == Join(",", QuotedValues(quote, row[..i])) + (if i == 0 then "" else ",")
    ensures keys + ("`" + row[i].key + "`,") == Join(",", QuotedKeys(row[..i + 1])) + ","
    ensures values + (quote(row[i].value) + ",") == Join(",", QuotedValues(quote, row[..i + 1])) + ","
  {
    var ks, vs := QuotedKeys(row[..i]), QuotedValues(quote, row[..i]);
    var k, v := "`" + row[i].key + "`", quote(row[i].value);
    assert QuotedKeys(row[..i + 1]) == ks + [k];
    assert QuotedValues(quote, row[..i + 1]) == vs + [v];
    JoinSnoc(",", ks, k);
    JoinSnoc(",", vs, v);
  }

  /** Cutting the trailing comma off both complete lists gives what `insert` returns. */
  lemma InsertListsDone(quote: string -> string, row: seq<Entry>, keys: string, values: string)
    requires FirstError(row, CheckEntry) == Pass
    requires keys == Join(",", QuotedKeys(row)) + (if |row| == 0 then "" else ",")
    requires values == Join(",", QuotedValues(quote, row)) + (if |row| == 0 then "" else ",")
    ensures InsertSpec(quote, row) == Ok(" (" + DropLast(keys) + ") VALUES (" + DropLast(values) + ")")
  {
    DropLastTerminated(',', QuotedKeys(row));
    DropLastTerminated(',', QuotedValues(quote, row));
  }

  /** `insert` fails exactly when some key is not a COLUMN name or some value
      does not match the escape its key selects. */
  lemma InsertRejects(quote: string -> string, row: seq<Entry>)
    ensures InsertSpec(quote, row).Err? <==>
      exists i | 0 <= i < |row| :: !Matches(Column, row[i].key) || !Matches(PolicyFor(row[i].key), row[i].value)
  {
    FirstErrorCharacterized(row, CheckEntry);
    if InsertSpec(quote, row).Err? {
      var i :| 0 <= i < |row| && CheckEntry(row[i]).Fail?;
      assert !Matches(Column, row[i].key) || !Matches(PolicyFor(row[i].key), row[i].value);
    }
  }

  /** A COLUMN name in backticks holds neither `)` nor `,`. */
  lemma BacktickedPlain(key: string)
    requires Matches(Column, key)
    ensures ')' !in "`" + key + "`" && ',' !in "`" + key + "`"
  {
    ColumnCharacters(key);
  }

  /** The backticked keys of an accepted row hold neither `)` nor `,`. */
  lemma QuotedKeysPlain(row: seq<Entry>)
    requires FirstError(row, CheckEntry) == Pass
    ensures forall i | 0 <= i < |row| :: ')' !in QuotedKeys(row)[i] && ',' !in QuotedKeys(row)[i]
  {
    FirstErrorCharacterized(row, CheckEntry);
    forall i | 0 <= i < |row| ensures ')' !in QuotedKeys(row)[i] && ',' !in QuotedKeys(row)[i] {
      CheckEntryMeaning(row[i]);
      BacktickedPlain(row[i].key);
    }
  }

  /** A parenthesised, comma-joined list of plain items reads back from
      the text that follows it. */
  lemma {:induction false} ColumnsReadBack(items: seq<string>, tail: string)
    requires |items| > 0
    requires forall i | 0 <= i < |items| :: ')' !in items[i] && ',' !in items[i]
    ensures var s := " (" + Join(",", items) + ") VALUES (" + tail + ")";
      s[..2] == " (" && Split(Before(s[2..], ')'), ",") == items
      && s[2 + |Before(s[2..], ')')|..] == ") VALUES (" + tail + ")"
  {
    var s, list := " (" + Join(",", items) + ") VALUES (" + tail + ")", Join(",", items);
    var rest := " VALUES (" + tail + ")";
    JoinAvoids(')', ",", items);
    assert s[2..] == list + [')'] + rest;
    BeforeFirst(list, ')', rest);
    SplitJoin(",", items);
  }

  /** An accepted INSERT reads back unambiguously: the text up to the
      first `)` splits at `,` into the backticked keys in input order, and
      what follows it is `) VALUES (`, the quoted values joined by `,` in
      the same order, and `)`. */
  lemma InsertColumnsParse(quote: string -> string, row: seq<Entry>)
    requires |row| > 0 && InsertSpec(quote, row).Ok?
    ensures var s := InsertSpec(quote, row).value;
      |s| >= 2 && s[..2] == " ("
      && Split(Before(s[2..], ')'), ",") == QuotedKeys(row)
      && s[2 + |Before(s[2..], ')')|..] == ") VALUES (" + Join(",", QuotedValues(quote, row)) + ")"
  {
    QuotedKeysPlain(row);
    ColumnsReadBack(QuotedKeys(row), Join(",", QuotedValues(quote, row)));
  }
}
