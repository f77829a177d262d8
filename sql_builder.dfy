/** The `SQL` helper class. Each builder accumulates its text in a loop and
    aborts at the first entry that fails a check; each is proved to return
    exactly what the corresponding function of `SqlSpec` describes. */
module SqlBuilder {
  import opened Text
  import opened Wrappers
  import opened SqlEscape
  import opened SqlSpec

  class Sql {
    /** The database connection's string-literal quoting (`PDO::quote`),
        the only part of the connection the helper uses. */
    const quote: string -> string

    constructor (quote: string -> string)
      ensures this.quote == quote
    {
      this.quote := quote;
    }

    /** `propsToString`: the column definitions, `, `-separated. */
    method PropsToString(props: seq<ColumnSpec>) returns (r: Result<string>)
      ensures r == PropsSpec(props)
    {
      var acc := "";
      var i := 0;
      while i < |props|
        invariant 0 <= i <= |props|
        invariant FirstError(props[..i], CheckColumnSpec) == Pass
        invariant acc == ColumnList(props[..i])
      {
        var p := props[i];
        FirstErrorStep(props, i, CheckColumnSpec);
        var t := RegexTest(DbType, p.dbType);
        if t.Fail? {
          return Err(t.error);
        }
        t := RegexTest(Column, p.column);
        if t.Fail? {
          return Err(t.error);
        }
        ColumnListSnoc(props, i);
        if i != 0 {
          acc := acc + ", ";
        }
        acc := acc + "`" + p.column + "` " + p.dbType;
        i := i + 1;
      }
      assert props[..i] == props;
      r := Ok(acc);
    }

    /** `foreignKeyToString`: for each key, its column and its constraint. */
    method ForeignKeyToString(keys: seq<ForeignKey>) returns (r: Result<string>)
      ensures r == ForeignKeysSpec(keys)
    {
      var acc := "";
      var i := 0;
      while i < |keys|
        invariant 0 <= i <= |keys|
        invariant FirstError(keys[..i], CheckForeignKey) == Pass
        invariant acc == ForeignKeyList(keys[..i])
      {
        var table, reference := keys[i].table, keys[i].reference;
        FirstErrorStep(keys, i, CheckForeignKey);
        var t := RegexTest(Column, table);
        if t.Fail? {
          return Err(t.error);
        }
        t := RegexTest(Column, reference);
        if t.Fail? {
          return Err(t.error);
        }
        var column := table + "_" + reference;
        ForeignKeyListSnoc(keys, i);
        var clause := ", " + ("`" + column + "` INTEGER NOT NULL")
          + ", " + ("FOREIGN KEY(`" + column + "`) REFERENCES `" + table + "`(`" + reference + "`)");
        acc := acc + clause;
        i := i + 1;
      }
      assert keys[..i] == keys;
      r := Ok(acc);
    }

    /** `create`: the CREATE TABLE statement for the columns and, when
        given and non-empty, the foreign keys. */
    method Create(table: string, props: seq<ColumnSpec>, fks: Option<seq<ForeignKey>>) returns (r: Result<string>)
      ensures r == CreateSpec(table, props, fks)
    {
      var columns := PropsToString(props);
      if columns.Err? {
        return Err(columns.error);
      }
      var full := "CREATE TABLE IF NOT EXISTS `" + table + "` (" + columns.value;
      if fks.Some? && fks.value != [] {
        var keys := ForeignKeyToString(fks.value);
        if keys.Err? {
          return Err(keys.error);
        }
        full := full + keys.value;
      } else {
        assert ForeignKeysSpec(GivenKeys(fks)) == Ok("");
        assert full == CreateHead(table) + columns.value + "";
      }
      full := full + ");";
      r := Ok(full);
    }

    /** `where`: the WHERE clause for the conditions, values quoted. */
    method Where(conditions: seq<Condition>) returns (r: Result<string>)
      ensures r == WhereSpec(quote, conditions)
    {
      var acc := "";
      var i := 0;
      while i < |conditions|
        invariant 0 <= i <= |conditions|
        invariant WhereSpec(quote, conditions[..i]) == Ok(acc)
      {
        FirstErrorStep(conditions, i, CheckCondition);
        var conjunct := CheckedConjunct(conditions[i]);
        if conjunct.Err? {
          return Err(conjunct.error);
        }
        WhereExtend(quote, conditions, i);
        if i > 0 {
          acc := acc + " AND";
        } else {
          acc := acc + " WHERE";
        }
        acc := acc + conjunct.value;
        i := i + 1;
      }
      assert conditions[..i] == conditions;
      r := Ok(acc);
    }

    /** The body of the loop in `where`: the checks of one condition in the
        order the helper makes them, then its conjunct. */
    method CheckedConjunct(c: Condition) returns (r: Result<string>)
      ensures CheckCondition(c).Fail? ==> r == Err(CheckCondition(c).error)
      ensures CheckCondition(c) == Pass ==> r == Ok(Conjunct(quote, c))
    {
      var op := ParseOp(c.operator);
      if op.None? {
        return Err(InvalidOperator(c.operator));
      }
      var escape := ParseEscape(c.escape);
      if escape.None? {
        return Err(InvalidEscape(c.escape));
      }
      var e := escape.value;
      var t := RegexTest(Column, c.column);
      if t.Fail? {
        return Err(t.error);
      }
      var operand: string;
      match c.value {
        case List(items) =>
          var quoted := QuoteEach(e, items);
          if quoted.Err? {
            return Err(quoted.error);
          }
          operand := "(" + Join(",", quoted.value) + ")";
        case Scalar(text) =>
          t := RegexTest(e, text);
          if t.Fail? {
            return Err(t.error);
          }
          operand := quote(text);
      }
      r := Ok(" `" + c.column + "` " + c.operator + " " + operand);
    }

    /** The `foreach` over an array value: each element is checked, then
        overwritten in place by its quoted form. */
    method QuoteEach(e: Escape, items: seq<string>) returns (r: Result<seq<string>>)
      ensures FirstError(items, Guard(e)).Fail? ==> r == Err(FirstError(items, Guard(e)).error)
      ensures FirstError(items, Guard(e)) == Pass ==> r == Ok(QuoteAll(quote, items))
    {
      var value := items;
      var k := 0;
      while k < |value|
        invariant 0 <= k <= |value| == |items|
        invariant FirstError(items[..k], Guard(e)) == Pass
        invariant forall j | 0 <= j < k :: value[j] == quote(items[j])
        invariant forall j | k <= j < |items| :: value[j] == items[j]
      {
        FirstErrorStep(items, k, Guard(e));
        var t := RegexTest(e, value[k]);
        if t.Fail? {
          return Err(t.error);
        }
        value := value[k := quote(value[k])];
        k := k + 1;
      }
      assert items[..k] == items;
      assert value == QuoteAll(quote, items);
      r := Ok(value);
    }

    /** `insert`: the column list and the value list of an INSERT, each
        built with a trailing comma that is cut off at the end. */
    method Insert(row: seq<Entry>) returns (r: Result<string>)
      ensures r == InsertSpec(quote, row)
    {
      var keys := "";
      var values := "";
      var i := 0;
      while i < |row|
        invariant 0 <= i <= |row|
        invariant FirstError(row[..i], CheckEntry) == Pass
        invariant keys == Join(",", QuotedKeys(row[..i])) + (if i == 0 then "" else ",")
        invariant values == Join(",", QuotedValues(quote, row[..i])) + (if i == 0 then "" else ",")
      {
        var key, value := row[i].key, row[i].value;
        FirstErrorStep(row, i, CheckEntry);
        var t := RegexTest(Column, key);
        if t.Fail? {
          return Err(t.error);
        }
        var escape := PolicyFor(key);
        t := RegexTest(escape, value);
        if t.Fail? {
          return Err(t.error);
        }
        InsertListsSnoc(quote, row, i, keys, values);
        keys := keys + ("`" + key + "`,");
        values := values + (quote(value) + ",");
        i := i + 1;
      }
      assert row[..i] == row;
      InsertListsDone(quote, row, keys, values);
      r := Ok(" (" + DropLast(keys) + ") VALUES (" + DropLast(values) + ")");
    }
  }
}
