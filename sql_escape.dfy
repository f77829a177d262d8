/** The constant sets of the SQL helper: the comparison operators (`SQLOP`)
    and the escape patterns (`SQLEscape`), each a closed datatype, together
    with the language each pattern accepts, written one predicate per pattern. */
module SqlEscape {
  import opened Text
  import opened Wrappers

  /** The operators a WHERE condition may use. */
  datatype Op = Equal | NotEqual | Like | Greater | GreaterEqual | Less | LessEqual | In

  /** The text of each operator constant. */
  function OpText(op: Op): string
  {
    match op
    case Equal => "="
    case NotEqual => "!="
    case Like => "LIKE"
    case Greater => ">"
    case GreaterEqual => ">="
    case Less => "<"
    case LessEqual => "<="
    case In => "IN"
  }

  /** The membership test on the operator set: the operator whose text is
      exactly `s`, if there is one. */
  function ParseOp(s: string): (r: Option<Op>)
    ensures r.Some? ==> OpText(r.value) == s
    ensures r.None? ==> forall op: Op :: OpText(op) != s
  {
    if s == "=" then Some(Equal)
    else if s == "!=" then Some(NotEqual)
    else if s == "LIKE" then Some(Like)
    else if s == ">" then Some(Greater)
    else if s == ">=" then Some(GreaterEqual)
    else if s == "<" then Some(Less)
    else if s == "<=" then Some(LessEqual)
    else if s == "IN" then Some(In)
    else None
  }

  /** The named escape patterns a value is checked against before quoting. */
  datatype Escape = Unchecked | Column | Slug | Tag | PostType | DbType | OrderDirection | Iso8601

  /** The character class the TAG pattern is built from: every 7-bit character. */
  const TagChars: string := "[\\x00-\\x7F]"

  /** The PCRE text of each escape constant; a WHERE condition names its
      escape by giving this text. */
  function PatternText(e: Escape): string
  {
    match e
    case Unchecked => "/.*/"
    case Column => "/^[a-zA-Z_]+$/"
    case Slug => "/^[a-zA-Z0-9_\\-]+$/"
    case Tag => "/^(" + TagChars + "+|%(" + TagChars + "+,)+%|(" + TagChars + "+,)+|^$)$/"
    case PostType => "/^[a-z]+$/"
    case DbType => "/^[A-Z][A-Z ]*$/"
    case OrderDirection => "/(ASC|DESC)/"
    case Iso8601 =>
      "/^[0-9]{4}-(0[0-9]|1[0-2])-([0-2][0-9]|3[0-1])[T ]([0-1][0-9]|2[0-3]):([0-5][0-9]):([0-5][0-9])"
      + "(\\.[0-9]+)?(Z|[\\+-]([0-1][0-9]|2[0-3]):?([0-5][0-9])?)?$/"
  }

  /** The membership test on the escape set: the escape whose pattern text is
      exactly `s`, if there is one. */
  function ParseEscape(s: string): (r: Option<Escape>)
    ensures r.Some? ==> PatternText(r.value) == s
    ensures r.None? ==> forall e: Escape :: PatternText(e) != s
  {
    if s == PatternText(Unchecked) then Some(Unchecked)
    else if s == PatternText(Column) then Some(Column)
    else if s == PatternText(Slug) then Some(Slug)
    else if s == PatternText(Tag) then Some(Tag)
    else if s == PatternText(PostType) then Some(PostType)
    else if s == PatternText(DbType) then Some(DbType)
    else if s == PatternText(OrderDirection) then Some(OrderDirection)
    else if s == PatternText(Iso8601) then Some(Iso8601)
    else None
  }

  // Character classes

  predicate IsLower(c: char) { 'a' <= c <= 'z' }
  predicate IsUpper(c: char) { 'A' <= c <= 'Z' }
  predicate IsDigit(c: char) { '0' <= c <= '9' }
  predicate IsAscii(c: char) { c as int < 128 }

  /** `[a-zA-Z_]` */
  predicate IsColumnChar(c: char) { IsLower(c) || IsUpper(c) || c == '_' }

  /** `[a-zA-Z0-9_\-]` */
  predicate IsSlugChar(c: char) { IsColumnChar(c) || IsDigit(c) || c == '-' }

  // The bodies of the anchored patterns, between `^` and `$`

  /** `[a-zA-Z_]+` */
  predicate ColumnBody(t: string) { |t| > 0 && forall i | 0 <= i < |t| :: IsColumnChar(t[i]) }

  /** `[a-zA-Z0-9_\-]+` */
  predicate SlugBody(t: string) { |t| > 0 && forall i | 0 <= i < |t| :: IsSlugChar(t[i]) }

  /** `[a-z]+` */
  predicate PostTypeBody(t: string) { |t| > 0 && forall i | 0 <= i < |t| :: IsLower(t[i]) }

  /** `[A-Z][A-Z ]*` */
  predicate DbTypeBody(t: string)
  {
    |t| > 0 && IsUpper(t[0]) && forall i | 1 <= i < |t| :: IsUpper(t[i]) || t[i] == ' '
  }

  predicate AllAscii(t: string) { forall i | 0 <= i < |t| :: IsAscii(t[i]) }

  /** `(TAG_CHARS+,)+`: one or more groups, each some 7-bit characters and a
      comma. Since the comma is itself a 7-bit character, any grouping of a
      7-bit string that ends in a comma after at least one other character works. */
  predicate TagGroups(t: string) { |t| >= 2 && t[|t| - 1] == ',' && AllAscii(t) }

  /** `TAG_CHARS+ | %(TAG_CHARS+,)+% | (TAG_CHARS+,)+ | ^$`: the four
      alternatives of the TAG pattern. */
  predicate TagBody(t: string)
  {
    (|t| > 0 && AllAscii(t))
    || (|t| >= 4 && t[0] == '%' && t[|t| - 1] == '%' && TagGroups(t[1..|t| - 1]))
    || TagGroups(t)
    || t == ""
  }

  // ISO8601: two-character fields range-checked by their digit classes

  /** `0[0-9]|1[0-2]` */
  predicate IsMonth(a: char, b: char) { (a == '0' && IsDigit(b)) || (a == '1' && '0' <= b <= '2') }

  /** `[0-2][0-9]|3[0-1]` */
  predicate IsDay(a: char, b: char) { ('0' <= a <= '2' && IsDigit(b)) || (a == '3' && '0' <= b <= '1') }

  /** `[0-1][0-9]|2[0-3]` */
  predicate IsHour(a: char, b: char) { ('0' <= a <= '1' && IsDigit(b)) || (a == '2' && '0' <= b <= '3') }

  /** `[0-5][0-9]` (minutes and seconds) */
  predicate IsMinute(a: char, b: char) { '0' <= a <= '5' && IsDigit(b) }

  /** `[0-9]{4}-MM-DD[T ]hh:mm:ss`, exactly 19 characters. */
  predicate IsDateTime(t: string)
  {
    |t| == 19
    && IsDigit(t[0]) && IsDigit(t[1]) && IsDigit(t[2]) && IsDigit(t[3]) && t[4] == '-'
    && IsMonth(t[5], t[6]) && t[7] == '-' && IsDay(t[8], t[9])
    && (t[10] == 'T' || t[10] == ' ')
    && IsHour(t[11], t[12]) && t[13] == ':' && IsMinute(t[14], t[15]) && t[16] == ':' && IsMinute(t[17], t[18])
  }

  /** `\.[0-9]+` */
  predicate IsFraction(f: string)
  {
    |f| >= 2 && f[0] == '.' && forall i | 1 <= i < |f| :: IsDigit(f[i])
  }

  /** `:?([0-5][0-9])?`: the tail of a numeric offset, where both the colon
      and the minutes may be missing. */
  predicate IsOffsetTail(m: string)
  {
    m == "" || m == ":"
    || (|m| == 2 && IsMinute(m[0], m[1]))
    || (|m| == 3 && m[0] == ':' && IsMinute(m[1], m[2]))
  }

  /** `(Z|[\+-]([0-1][0-9]|2[0-3]):?([0-5][0-9])?)?` */
  predicate IsOptionalOffset(z: string)
  {
    z == "" || z == "Z"
    || (|z| >= 3 && (z[0] == '+' || z[0] == '-') && IsHour(z[1], z[2]) && IsOffsetTail(z[3..]))
  }

  /** The body of the ISO8601 pattern: date and time, then an optional
      fraction, then an optional offset. */
  predicate IsoBody(t: string)
  {
    |t| >= 19 && IsDateTime(t[..19])
    && (IsOptionalOffset(t[19..])
        || exists k | 21 <= k <= |t| :: IsFraction(t[19..k]) && IsOptionalOffset(t[k..]))
  }

  /** PCRE's `$` without the D modifier matches at the very end and also just
      before a final newline, so an anchored pattern accepts its body
      followed by one "\n". */
  predicate EndAnchored(body: string -> bool, s: string)
  {
    body(s) || (|s| > 0 && s[|s| - 1] == '\n' && body(s[..|s| - 1]))
  }

  /** `preg_match(PatternText(e), s)` succeeds. */
  predicate Matches(e: Escape, s: string)
  {
    match e
    case Unchecked => true
    case Column => EndAnchored(ColumnBody, s)
    case Slug => EndAnchored(SlugBody, s)
    case Tag => EndAnchored(TagBody, s)
    case PostType => EndAnchored(PostTypeBody, s)
    case DbType => EndAnchored(DbTypeBody, s)
    case OrderDirection => Contains(s, "ASC") || Contains(s, "DESC")
    case Iso8601 => EndAnchored(IsoBody, s)
  }

  // Properties of the operator and escape sets

  /** Each operator is recognised by its own text. */
  lemma ParseOpText(op: Op)
    ensures ParseOp(OpText(op)) == Some(op)
  {
  }

  /** Each escape is recognised by its own pattern text (the eight texts are distinct). */
  lemma ParseEscapeText(e: Escape)
    ensures ParseEscape(PatternText(e)) == Some(e)
  {
  }

  // What each pattern lets through, character by character

  /** An accepted column name is letters and underscores, save for the one
      trailing newline PCRE's `$` lets through; so it never holds a backtick,
      a quote, a semicolon, a comma, a parenthesis or a space. */
  lemma ColumnCharacters(s: string)
    requires Matches(Column, s)
    ensures |s| > 0
    ensures forall i | 0 <= i < |s| :: IsColumnChar(s[i]) || (i == |s| - 1 && s[i] == '\n')
    ensures '`' !in s && '\'' !in s && '"' !in s && ';' !in s && ',' !in s && ' ' !in s
    ensures '(' !in s && ')' !in s
  {
    if !ColumnBody(s) {
      var t := s[..|s| - 1];
      assert forall i | 0 <= i < |s| - 1 :: s[i] == t[i];
    }
  }

  /** A column name is accepted exactly when it is one or more of
      `[a-zA-Z_]`, optionally followed by a single newline. */
  lemma ColumnAccepts(s: string)
    ensures Matches(Column, s) <==>
      (|s| > 0 && forall i | 0 <= i < |s| :: IsColumnChar(s[i]))
      || (|s| > 1 && s[|s| - 1] == '\n' && forall i | 0 <= i < |s| - 1 :: IsColumnChar(s[i]))
  {
    if |s| > 1 && s[|s| - 1] == '\n' {
      var t := s[..|s| - 1];
      assert forall i | 0 <= i < |s| - 1 :: s[i] == t[i];
    }
  }

  /** A slug is accepted exactly when it is one or more letters, digits,
      underscores and hyphens, optionally followed by a single newline. */
  lemma SlugCharacters(s: string)
    ensures Matches(Slug, s) <==>
      (|s| > 0 && forall i | 0 <= i < |s| :: IsSlugChar(s[i]))
      || (|s| > 1 && s[|s| - 1] == '\n' && forall i | 0 <= i < |s| - 1 :: IsSlugChar(s[i]))
  {
    if |s| > 1 && s[|s| - 1] == '\n' {
      var t := s[..|s| - 1];
      assert forall i | 0 <= i < |s| - 1 :: s[i] == t[i];
    }
  }

  /** A post type is accepted exactly when it is one or more lower-case
      letters, optionally followed by a single newline. */
  lemma PostTypeCharacters(s: string)
    ensures Matches(PostType, s) <==>
      (|s| > 0 && forall i | 0 <= i < |s| :: IsLower(s[i]))
      || (|s| > 1 && s[|s| - 1] == '\n' && forall i | 0 <= i < |s| - 1 :: IsLower(s[i]))
  {
    if |s| > 1 && s[|s| - 1] == '\n' {
      var t := s[..|s| - 1];
      assert forall i | 0 <= i < |s| - 1 :: s[i] == t[i];
    }
  }

  /** A database type is accepted exactly when it starts with a capital
      letter and goes on with capitals and spaces, optionally followed by a
      single newline; so it never holds a comma, a backtick, a quote or a
      semicolon. */
  lemma DbTypeCharacters(s: string)
    ensures Matches(DbType, s) <==>
      (|s| > 0 && IsUpper(s[0]) && forall i | 1 <= i < |s| :: IsUpper(s[i]) || s[i] == ' ')
      || (|s| > 1 && s[|s| - 1] == '\n' && IsUpper(s[0])
          && forall i | 1 <= i < |s| - 1 :: IsUpper(s[i]) || s[i] == ' ')
    ensures Matches(DbType, s) ==> ',' !in s && '`' !in s && '\'' !in s && ';' !in s
  {
    if |s| > 1 && s[|s| - 1] == '\n' {
      var t := s[..|s| - 1];
      assert forall i | 0 <= i < |s| - 1 :: s[i] == t[i];
      assert s[0] == t[0];
    }
  }

  /** Whatever one of the four TAG alternatives accepts is 7-bit. */
  lemma TagBodyAscii(t: string)
    requires TagBody(t)
    ensures AllAscii(t)
  {
    if !(|t| > 0 && AllAscii(t)) && !TagGroups(t) && t != "" {
      var g := t[1..|t| - 1];
      assert forall i | 1 <= i < |t| - 1 :: t[i] == g[i - 1];
    }
  }

  /** The TAG pattern accepts exactly the 7-bit strings, the empty one and
      those with commas included: all four alternatives collapse into one. */
  lemma TagAcceptsExactlyAscii(s: string)
    ensures Matches(Tag, s) <==> AllAscii(s)
  {
    if |s| > 0 && s[|s| - 1] == '\n' && TagBody(s[..|s| - 1]) {
      var t := s[..|s| - 1];
      TagBodyAscii(t);
      assert s == t + ['\n'];
    }
    if TagBody(s) {
      TagBodyAscii(s);
    }
  }

  /** The ORDER_DIRECTION pattern is not anchored: anything that merely
      contains `ASC` or `DESC` is accepted. */
  lemma OrderDirectionUnanchored()
    ensures Matches(OrderDirection, "ASC")
    ensures Matches(OrderDirection, "DESC")
    ensures Matches(OrderDirection, "ASC; DROP TABLE posts")
    ensures !Matches(OrderDirection, "asc")
  {
    assert OccursAt("ASC", "ASC", 0);
    assert OccursAt("DESC", "DESC", 0);
    assert OccursAt("ASC; DROP TABLE posts", "ASC", 0);
    forall i: nat | i <= 3
      ensures !OccursAt("asc", "ASC", i) && !OccursAt("asc", "DESC", i)
    {
      if i == 0 {
        assert "asc"[0..3][0] == 'a';
      }
    }
  }

  /** The anchored patterns let one trailing newline through. */
  lemma TrailingNewline()
    ensures Matches(Column, "abc\n")
    ensures !Matches(Column, "abc\n\n")
    ensures !Matches(Column, "ab c")
  {
    assert "abc\n"[..3] == "abc";
    assert "abc\n\n"[..4] == "abc\n";
    assert !IsColumnChar("abc\n\n"[3]) && !IsColumnChar("abc\n\n"[..4][3]);
    assert !IsColumnChar("ab c"[2]);
  }

  /** The numeric value of a two-digit field. */
  function Field(a: char, b: char): int
  {
    10 * (a as int - '0' as int) + (b as int - '0' as int)
  }

  /** `[0-1][0-9]|2[0-3]` accepts exactly the hours 00 to 23. */
  lemma HourRange(a: char, b: char)
    ensures IsHour(a, b) <==> IsDigit(a) && IsDigit(b) && Field(a, b) <= 23
  {
  }

  /** The date-time prefix is range-checked only by digit classes: month
      00 to 12, day 00 to 31, hour 00 to 23, minute and second 00 to 59. */
  lemma DateTimeFields(t: string)
    requires |t| == 19
    ensures IsDateTime(t) <==>
      (forall i | i in {0, 1, 2, 3, 5, 6, 8, 9, 11, 12, 14, 15, 17, 18} :: IsDigit(t[i]))
      && t[4] == '-' && t[7] == '-' && (t[10] == 'T' || t[10] == ' ') && t[13] == ':' && t[16] == ':'
      && Field(t[5], t[6]) <= 12 && Field(t[8], t[9]) <= 31 && Field(t[11], t[12]) <= 23
      && Field(t[14], t[15]) <= 59 && Field(t[17], t[18]) <= 59
  {
  }

  /** An out-of-range month or hour fails the ISO8601 pattern. */
  lemma Iso8601OutOfRange()
    ensures !Matches(Iso8601, "2024-13-01T00:00:00Z")
    ensures !Matches(Iso8601, "2024-01-01T24:00:00")
  {
    var e := "2024-13-01T00:00:00Z";
    assert e[..19][5] == '1' && e[..19][6] == '3';
    var f := "2024-01-01T24:00:00";
    assert f[..19][11] == '2' && f[..19][12] == '4';
  }

  /** A full timestamp passes the ISO8601 pattern with `T` and `Z`, and with
      a space and no offset. */
  lemma Iso8601InRange()
    ensures Matches(Iso8601, "2024-01-01T00:00:00Z")
    ensures Matches(Iso8601, "2024-01-01 00:00:00")
  {
    var a := "2024-01-01T00:00:00Z";
    assert IsDateTime(a[..19]) && a[19..] == "Z";
    var b := "2024-01-01 00:00:00";
    assert IsDateTime(b[..19]) && b[19..] == "";
  }

  /** A timestamp is accepted when it is a date-time, then nothing or a
      fraction, then an optional offset: the pattern's three parts compose. */
  lemma IsoCompose(dateTime: string, fraction: string, offset: string)
    requires IsDateTime(dateTime)
    requires fraction == "" || IsFraction(fraction)
    requires IsOptionalOffset(offset)
    ensures Matches(Iso8601, dateTime + fraction + offset)
  {
    var t := dateTime + fraction + offset;
    assert t[..19] == dateTime;
    if fraction == "" {
      assert t[19..] == offset;
    } else {
      var k := 19 + |fraction|;
      assert t[19..k] == fraction && t[k..] == offset;
    }
  }

  /** The looseness of the ISO8601 pattern: month and day 00 pass, and a
      fraction of any length passes. */
  lemma Iso8601ZeroDate()
    ensures Matches(Iso8601, "2024-00-00T23:59:59.125+0530")
  {
    assert "+0530"[3..] == "30";
    IsoCompose("2024-00-00T23:59:59", ".125", "+0530");
    assert "2024-00-00T23:59:59" + ".125" + "+0530" == "2024-00-00T23:59:59.125+0530";
  }

  /** The looseness of the ISO8601 pattern: the offset may keep its colon
      and drop its minutes. */
  lemma Iso8601HalfOffset()
    ensures Matches(Iso8601, "2024-01-01T00:00:00-05:")
  {
    assert "-05:"[3..] == ":";
    IsoCompose("2024-01-01T00:00:00", "", "-05:");
    assert "2024-01-01T00:00:00" + "" + "-05:" == "2024-01-01T00:00:00-05:";
  }
}
