/** The CREATE INDEX statement built for an index definition, and how to read one back. */
module IndexText {
  import opened Text

  datatype DbIndex = DbIndex(
    name: string, columns: seq<string>, unique: bool, method_: string, where_: string,
    include_: seq<string>, with_: string, tablespace: string, concurrent: bool, opClass: string)

  // ---- printing -----------------------------------------------------------------------------

  function Commas(parts: seq<string>): string {
    if parts == [] then "" else if |parts| == 1 then parts[0] else parts[0] + ", " + Commas(parts[1..])
  }

  function Column(col: string, opClass: string): string {
    if opClass != "" then col + " " + opClass else col
  }

  function Columns(cols: seq<string>, opClass: string): seq<string> {
    seq(|cols|, i requires 0 <= i < |cols| => Column(cols[i], opClass))
  }

  function SpaceClause(tablespace: string): string {
    if tablespace != "" then " TABLESPACE " + tablespace else ""
  }

  function WithClause(with_: string): string {
    if with_ != "" then " WITH (" + with_ + ")" else ""
  }

  function WhereClause(where_: string): string {
    if where_ != "" then " WHERE " + where_ else ""
  }

  function IncludeClause(include_: seq<string>): string {
    if include_ != [] then " INCLUDE (" + Commas(include_) + ")" else ""
  }

  function Clauses(d: DbIndex): string {
    WhereClause(d.where_) + WithClause(d.with_) + SpaceClause(d.tablespace)
  }

  function Flag(word: string, present: bool): string {
    if present then word else ""
  }

  function IndexHead(table: string, d: DbIndex): string {
    "INDEX " + d.name + " ON " + table + " USING " + d.method_ + " ("
  }

  /** The whole statement, grouped the way it is read. */
  function Print(table: string, d: DbIndex): string {
    "CREATE " + (Flag("UNIQUE ", d.unique) + (Flag("CONCURRENTLY ", d.concurrent) + (IndexHead(table, d) + Body(d))))
  }

  function Body(d: DbIndex): string {
    Commas(Columns(d.columns, d.opClass)) + (")" + (IncludeClause(d.include_) + Clauses(d)))
  }

  lemma Cat(a: string, b: string, c: string)
    ensures a + b + c == a + (b + c)
  {
  }

  /** EnsureIndices appends to one buffer, piece by piece. */
  method BuildStatement(table: string, index: DbIndex) returns (stmt: string)
    ensures stmt == Print(table, index)
  {
    ghost var r1 := Flag("CONCURRENTLY ", index.concurrent) + (IndexHead(table, index) + Body(index));
    stmt := "CREATE ";
    Cat(stmt, Flag("UNIQUE ", index.unique), r1);
    if index.unique {
      stmt := stmt + "UNIQUE ";
    }
    assert stmt + r1 == Print(table, index);
    Cat(stmt, Flag("CONCURRENTLY ", index.concurrent), IndexHead(table, index) + Body(index));
    if index.concurrent {
      stmt := stmt + "CONCURRENTLY ";
    }
    assert stmt + (IndexHead(table, index) + Body(index)) == Print(table, index);
    Cat(stmt, IndexHead(table, index), Body(index));
    stmt := stmt + ("INDEX " + index.name + " ON " + table + " USING " + index.method_ + " (");
    ghost var head := stmt;
    assert head + Body(index) == Print(table, index);
    stmt := WriteColumns(stmt, index);
    stmt := WriteClauses(stmt, index);
    BodyText(head, index);
  }

  lemma BodyText(head: string, d: DbIndex)
    ensures head + Commas(Columns(d.columns, d.opClass)) + ")" + IncludeClause(d.include_) + Clauses(d)
      == head + Body(d)
  {
    var cols := Commas(Columns(d.columns, d.opClass));
    Cat(head, cols, ")" + (IncludeClause(d.include_) + Clauses(d)));
    Cat(head + cols, ")", IncludeClause(d.include_) + Clauses(d));
    Cat(head + cols + ")", IncludeClause(d.include_), Clauses(d));
  }

  method WriteColumns(buffer: string, index: DbIndex) returns (stmt: string)
    ensures stmt == buffer + Commas(Columns(index.columns, index.opClass))
  {
    stmt := buffer;
    ghost var items := Columns(index.columns, index.opClass);
    for i := 0 to |index.columns|
      invariant stmt == buffer + Commas(items[..i])
    {
      CommasSnoc(items, i);
      ghost var sep, col := if i > 0 then ", " else "", index.columns[i];
      ItemText(buffer + Commas(items[..i]), sep, col, index.opClass);
      Cat(buffer, Commas(items[..i]), sep + items[i]);
      if i > 0 {
        stmt := stmt + ", ";
      }
      stmt := stmt + index.columns[i];
      if index.opClass != "" {
        stmt := stmt + (" " + index.opClass);
      }
    }
    assert items[..|index.columns|] == items;
  }

  lemma ItemText(before: string, sep: string, col: string, opClass: string)
    ensures before + sep + col + (if opClass != "" then " " + opClass else "") == before + (sep + Column(col, opClass))
    ensures before + "" == before
  {
    Cat(before, sep, col);
    Cat(before, sep + col, " " + opClass);
    Cat(sep, col, " " + opClass);
    Cat(col, " ", opClass);
  }

  method WriteClauses(buffer: string, index: DbIndex) returns (stmt: string)
    ensures stmt == buffer + ")" + IncludeClause(index.include_) + Clauses(index)
  {
    stmt := buffer + ")";
    if |index.include_| > 0 {
      Cat(stmt, " INCLUDE (", Commas(index.include_));
      Cat(stmt, " INCLUDE (" + Commas(index.include_), ")");
      stmt := stmt + " INCLUDE (";
      stmt := stmt + Commas(index.include_);
      stmt := stmt + ")";
    }
    assert stmt == buffer + ")" + IncludeClause(index.include_);
    ghost var base := stmt;
    if index.where_ != "" {
      stmt := stmt + (" WHERE " + index.where_);
    }
    assert stmt == base + WhereClause(index.where_);
    if index.with_ != "" {
      stmt := stmt + (" WITH (" + index.with_ + ")");
    }
    assert stmt == base + WhereClause(index.where_) + WithClause(index.with_);
    if index.tablespace != "" {
      stmt := stmt + (" TABLESPACE " + index.tablespace);
    }
    Cat(base, WhereClause(index.where_), WithClause(index.with_));
    Cat(base, WhereClause(index.where_) + WithClause(index.with_), SpaceClause(index.tablespace));
  }

  /** A statement with every clause there is. */
  lemma FullStatement(table: string, d: DbIndex)
    requires d.unique && d.concurrent && d.columns == ["a", "b"] && d.opClass == "o" && d.include_ == ["c", "e"]
    requires d.where_ == "w" && d.with_ == "f=1" && d.tablespace == "s"
    ensures Print(table, d)
         == "CREATE " + ("UNIQUE " + ("CONCURRENTLY " + (("INDEX " + d.name + " ON " + table + " USING " + d.method_
          + " (") + ("a o, b o" + (")" + (" INCLUDE (c, e)" + " WHERE w WITH (f=1) TABLESPACE s"))))))
  {
    FullColumns();
    FullInclude();
    FullClauses(d);
  }

  lemma FullColumns()
    ensures Commas(Columns(["a", "b"], "o")) == "a o, b o"
  {
    assert Column("a", "o") == "a o" && Column("b", "o") == "b o";
    assert Columns(["a", "b"], "o") == ["a o", "b o"];
    TwoParts("a o", "b o");
  }

  lemma FullInclude()
    ensures IncludeClause(["c", "e"]) == " INCLUDE (c, e)"
  {
    TwoParts("c", "e");
  }

  lemma FullClauses(d: DbIndex)
    requires d.where_ == "w" && d.with_ == "f=1" && d.tablespace == "s"
    ensures Clauses(d) == " WHERE w WITH (f=1) TABLESPACE s"
  {
  }

  lemma TwoParts(x: string, y: string)
    ensures Commas([x, y]) == x + ", " + y
  {
    assert [x, y][1..] == [y];
  }

  /** And one with none. */
  lemma ShortStatement(table: string, name: string)
    ensures var d := DbIndex(name, ["a"], false, "btree", "", [], "", "", false, "");
      Print(table, d) == "CREATE INDEX " + name + " ON " + table + " USING btree (a)"
  {
  }

  lemma {:induction false} CommasSnoc(parts: seq<string>, i: nat)
    requires i < |parts|
    ensures Commas(parts[..i + 1]) == Commas(parts[..i]) + ((if i > 0 then ", " else "") + parts[i])
  {
    if i == 0 {
      assert parts[..1] == [parts[0]];
    } else {
      CommasSnoc(parts[1..], i - 1);
      assert parts[..i + 1][1..] == parts[1..][..i];
      assert parts[..i][1..] == parts[1..][..i - 1];
      if i == 1 {
        assert parts[..1] == [parts[0]];
      }
    }
  }

  // ---- reading ------------------------------------------------------------------------------

  function Strip(s: string, prefix: string): Option<string> {
    if prefix <= s then Some(s[|prefix|..]) else None
  }

  /** What comes before and after the first `c`. */
  function Cut(s: string, c: char): Option<(string, string)> {
    if s == "" then None
    else if s[0] == c then Some(("", s[1..]))
    else match Cut(s[1..], c)
      case Some((a, b)) => Some(([s[0]] + a, b))
      case None => None
  }

  /** What comes before and after the first `word`. */
  function CutWord(s: string, word: string): Option<(string, string)> {
    if word <= s then Some(("", s[|word|..]))
    else if s == "" then None
    else match CutWord(s[1..], word)
      case Some((a, b)) => Some(([s[0]] + a, b))
      case None => None
  }

  const WITH := " WITH ("

  predicate Identifier(s: string) {
    s != "" && ' ' !in s && ',' !in s && '(' !in s && ')' !in s
  }

  /** A text that may end in a TABLESPACE clause: the text before it, and the name. */
  function SplitSpace(s: string): (string, string) {
    var i := LastSpace(s);
    var word := " TABLESPACE";
    if i.Some? && i.value > |word| && s[i.value - |word|..i.value] == word && Identifier(s[i.value + 1..])
    then (s[..i.value - |word|], s[i.value + 1..])
    else (s, "")
  }

  function LastSpace(s: string): (r: Option<nat>)
    ensures r.Some? ==> r.value < |s|
  {
    if s == "" then None else if s[|s| - 1] == ' ' then Some(|s| - 1) else LastSpace(s[..|s| - 1])
  }

  function ReadSpace(s: string): Option<string> {
    if s == "" then Some("") else Strip(s, " TABLESPACE ")
  }

  function ReadWith(s: string): Option<(string, string)> {
    match Cut(s, ')')
    case Some((with_, rest)) =>
      (match ReadSpace(rest)
       case Some(space) => Some((with_, space))
       case None => None)
    case None => None
  }

  /** The WHERE, WITH and TABLESPACE clauses, each of them optional. */
  function ReadClauses(s: string): Option<(string, string, string)> {
    match Strip(s, " WHERE ")
    case Some(text) =>
      (match CutWord(text, WITH)
       case Some((where_, after)) =>
         (match ReadWith(after)
          case Some((with_, space)) => Some((where_, with_, space))
          case None => None)
       case None =>
         var (where_, space) := SplitSpace(text);
         Some((where_, "", space)))
    case None =>
      match Strip(s, " WITH (")
      case Some(text) =>
        (match ReadWith(text)
         case Some((with_, space)) => Some(("", with_, space))
         case None => None)
      case None =>
        match ReadSpace(s)
        case Some(space) => Some(("", "", space))
        case None => None
  }

  /** The pieces of a list printed with ", " between them. */
  function ReadCommas(s: string): Option<seq<string>> {
    Unpadded(Split(s, ','))
  }

  function Unpadded(pieces: seq<string>): Option<seq<string>>
    requires |pieces| >= 1
    decreases |pieces|
  {
    if |pieces| == 1 then Some(pieces)
    else match Strip(pieces[1], " ")
      case Some(next) =>
        (match Unpadded([next] + pieces[2..])
         case Some(rest) => Some([pieces[0]] + rest)
         case None => None)
      case None => None
  }

  function ReadInclude(s: string): Option<(seq<string>, string)> {
    match Strip(s, " INCLUDE (")
    case None => Some(([], s))
    case Some(text) =>
      match Cut(text, ')')
      case None => None
      case Some((inside, rest)) =>
        match ReadCommas(inside)
        case Some(parts) => Some((parts, rest))
        case None => None
  }

  /** A column and its operator class, if it has one. */
  function ReadColumn(item: string): (string, string) {
    match Cut(item, ' ')
    case Some((col, opClass)) => (col, opClass)
    case None => (item, "")
  }

  /** The columns, which all carry the same operator class. */
  function ReadColumns(items: seq<string>): Option<(seq<string>, string)>
    requires |items| >= 1
  {
    var opClass := ReadColumn(items[0]).1;
    if forall i :: 0 <= i < |items| ==> ReadColumn(items[i]).1 == opClass
    then Some((seq(|items|, i requires 0 <= i < |items| => ReadColumn(items[i]).0), opClass))
    else None
  }

  function ReadWord(s: string, after: string): Option<(string, string)> {
    match Strip(s, after)
    case Some(rest) => Cut(rest, ' ')
    case None => None
  }

  datatype Head = Head(unique: bool, concurrent: bool, name: string, table: string, method_: string, rest: string)

  function ReadHead(s: string): Option<Head> {
    match Strip(s, "CREATE ")
    case None => None
    case Some(s0) =>
      var unique := Strip(s0, "UNIQUE ");
      var s1 := if unique.Some? then unique.value else s0;
      var concurrent := Strip(s1, "CONCURRENTLY ");
      var s2 := if concurrent.Some? then concurrent.value else s1;
      match ReadWord(s2, "INDEX ")
      case None => None
      case Some((name, s3)) =>
        match ReadWord(s3, "ON ")
        case None => None
        case Some((table, s4)) =>
          match ReadWord(s4, "USING ")
          case None => None
          case Some((method_, s5)) =>
            match Strip(s5, "(")
            case None => None
            case Some(rest) => Some(Head(unique.Some?, concurrent.Some?, name, table, method_, rest))
  }

  /** The table and the definition a statement stands for. */
  function Parse(s: string): Option<(string, DbIndex)> {
    match ReadHead(s)
    case None => None
    case Some(h) =>
      match Cut(h.rest, ')')
      case None => None
      case Some((inside, s1)) =>
        match ReadCommas(inside)
        case None => None
        case Some(items) =>
          match ReadColumnsOf(items)
          case None => None
          case Some((columns, opClass)) =>
            match ReadInclude(s1)
            case None => None
            case Some((include_, s2)) =>
              match ReadClauses(s2)
              case None => None
              case Some((where_, with_, space)) =>
                Some((h.table, DbIndex(h.name, columns, h.unique, h.method_, where_, include_, with_, space,
                  h.concurrent, opClass)))
  }

  function ReadColumnsOf(items: seq<string>): Option<(seq<string>, string)> {
    if items == [] then None else ReadColumns(items)
  }

  // ---- round trip ---------------------------------------------------------------------------

  /** Identifiers are plain words, there is a column, a condition holds no WITH clause, and storage
      parameters keep to their brackets. */
  predicate WellFormed(table: string, d: DbIndex) {
    && Identifier(table) && Identifier(d.name) && Identifier(d.method_)
    && d.columns != [] && (forall c <- d.columns :: Identifier(c))
    && (d.opClass == "" || Identifier(d.opClass))
    && (forall c <- d.include_ :: Identifier(c))
    && CutWord(d.where_, WITH).None? && ')' !in d.with_
    && (d.tablespace == "" || Identifier(d.tablespace))
  }

  /** A condition with nothing printed after it that itself ends like a TABLESPACE clause. */
  predicate EndsLikeTablespace(d: DbIndex) {
    d.where_ != "" && d.with_ == "" && d.tablespace == "" && SplitSpace(d.where_).1 != ""
  }

  /** The definition a statement is read as: such an ending is taken for the clause it looks like. */
  function Canonical(d: DbIndex): DbIndex {
    if EndsLikeTablespace(d) then d.(where_ := SplitSpace(d.where_).0, tablespace := SplitSpace(d.where_).1) else d
  }

  lemma {:induction false} CutAt(a: string, c: char, b: string)
    requires c !in a
    ensures Cut(a + [c] + b, c) == Some((a, b))
  {
    if a == "" {
      assert a + [c] + b == [c] + b;
    } else {
      assert (a + [c] + b)[1..] == a[1..] + [c] + b;
      CutAt(a[1..], c, b);
      assert [a[0]] + a[1..] == a;
    }
  }

  lemma {:induction false} CutNone(s: string, c: char)
    requires c !in s
    ensures Cut(s, c) == None
  {
    if s != "" {
      CutNone(s[1..], c);
    }
  }

  /** The word cannot begin inside a text that is free of it. */
  lemma {:induction false} CutWordAt(a: string, b: string)
    requires CutWord(a, WITH).None?
    ensures CutWord(a + WITH + b, WITH) == Some((a, b))
  {
    var s := a + WITH + b;
    if a == "" {
      assert s == WITH + b;
    } else {
      assert s[1..] == a[1..] + WITH + b;
      CutWordAt(a[1..], b);
      NotYet(a, WITH + b);
      assert s == a + (WITH + b);
      assert [a[0]] + a[1..] == a;
    }
  }

  lemma NotYet(a: string, rest: string)
    requires a != "" && !(WITH <= a)
    requires WITH <= rest || '(' !in rest
    ensures !(WITH <= a + rest)
  {
    var s := a + rest;
    if |a| >= 7 {
      assert s[..7] == a[..7];
    } else if '(' !in rest {
      assert |s| > 6 ==> s[6] == rest[6 - |a|] && WITH[6] == '(';
    } else {
      assert s[|a|] == rest[0] && rest[0] == WITH[0];
      assert s[|a| + 1] == rest[1] && rest[1] == WITH[1];
    }
  }

  lemma {:induction false} CutWordNone(a: string, rest: string)
    requires CutWord(a, WITH).None? && '(' !in rest
    ensures CutWord(a + rest, WITH).None?
  {
    var s := a + rest;
    if s == "" {
    } else if a == "" {
      assert s == rest && WITH[6] == '(';
      CutWordNone("", rest[1..]);
      assert "" + rest[1..] == s[1..];
    } else {
      NotYet(a, rest);
      assert s[1..] == a[1..] + rest;
      CutWordNone(a[1..], rest);
    }
  }

  lemma StripAt(prefix: string, s: string)
    ensures Strip(prefix + s, prefix) == Some(s)
  {
  }

  lemma {:induction false} LastSpaceAt(a: string, b: string)
    requires ' ' !in b
    ensures LastSpace(a + [' '] + b) == Some(|a|)
  {
    if b == "" {
      assert a + [' '] + b == a + [' '];
    } else {
      var s := a + [' '] + b;
      assert s[|s| - 1] == b[|b| - 1];
      assert s[..|s| - 1] == a + [' '] + b[..|b| - 1];
      LastSpaceAt(a, b[..|b| - 1]);
    }
  }

  lemma SpaceText(space: string)
    requires space != ""
    ensures SpaceClause(space) == " TABLESPACE" + (" " + space)
  {
    assert " TABLESPACE " == " TABLESPACE" + " ";
  }

  lemma PiecesOf(a: string, b: string, c: string)
    ensures var s := a + b + [' '] + c;
      && s[..|a|] == a && s[|a|..|a + b|] == b && s[|a + b| + 1..] == c
      && s == a + (b + (" " + c))
  {
  }

  lemma SplitSpaceAt(text: string, space: string)
    requires text != "" && Identifier(space)
    ensures SplitSpace(text + SpaceClause(space)) == (text, space)
  {
    SpaceText(space);
    PiecesOf(text, " TABLESPACE", space);
    LastSpaceAt(text + " TABLESPACE", space);
  }

  lemma ReadSpaceAt(space: string)
    ensures ReadSpace(SpaceClause(space)) == Some(space)
  {
    StripAt(" TABLESPACE ", space);
  }

  lemma ReadWithAt(with_: string, space: string)
    requires ')' !in with_
    ensures ReadWith(with_ + ")" + SpaceClause(space)) == Some((with_, space))
  {
    CutAt(with_, ')', SpaceClause(space));
    ReadSpaceAt(space);
  }

  lemma ReadWhereWith(where_: string, with_: string, space: string)
    requires CutWord(where_, WITH).None? && where_ != "" && ')' !in with_ && with_ != ""
    ensures ReadClauses(WhereClause(where_) + WithClause(with_) + SpaceClause(space)) == Some((where_, with_, space))
  {
    var after := with_ + ")" + SpaceClause(space);
    WhereWithText(where_, with_, space);
    StripAt(" WHERE ", where_ + WITH + after);
    CutWordAt(where_, after);
    ReadWithAt(with_, space);
  }

  lemma WhereWithText(where_: string, with_: string, space: string)
    requires where_ != "" && with_ != ""
    ensures WhereClause(where_) + WithClause(with_) + SpaceClause(space)
         == " WHERE " + (where_ + WITH + (with_ + ")" + SpaceClause(space)))
  {
    var after := with_ + ")" + SpaceClause(space);
    WithText(with_, space);
    Cat(WhereClause(where_), WithClause(with_), SpaceClause(space));
    Cat(" WHERE ", where_, WITH + after);
    Cat(where_, WITH, after);
  }

  lemma WithText(with_: string, space: string)
    requires with_ != ""
    ensures WithClause(with_) + SpaceClause(space) == " WITH (" + (with_ + ")" + SpaceClause(space))
  {
    Cat(" WITH (", with_, ")");
    Cat(" WITH (", with_ + ")", SpaceClause(space));
  }

  lemma ReadWhereOnly(where_: string, space: string)
    requires CutWord(where_, WITH).None? && where_ != "" && (space == "" || Identifier(space))
    ensures ReadClauses(WhereClause(where_) + SpaceClause(space))
         == Some((SplitSpace(where_ + SpaceClause(space)).0, "", SplitSpace(where_ + SpaceClause(space)).1))
  {
    var text := where_ + SpaceClause(space);
    Cat(" WHERE ", where_, SpaceClause(space));
    StripAt(" WHERE ", text);
    NoBracket(space);
    CutWordNone(where_, SpaceClause(space));
  }

  lemma NoBracket(space: string)
    requires space == "" || Identifier(space)
    ensures '(' !in SpaceClause(space)
  {
    assert '(' !in " TABLESPACE ";
  }

  lemma ReadNoWhere(with_: string, space: string)
    requires ')' !in with_
    ensures ReadClauses(WithClause(with_) + SpaceClause(space)) == Some(("", with_, space))
  {
    if with_ != "" {
      WithText(with_, space);
      var text := with_ + ")" + SpaceClause(space);
      assert (" WITH (" + text)[2] == 'I' && " WHERE "[2] == 'H';
      StripAt(" WITH (", text);
      ReadWithAt(with_, space);
    } else if space != "" {
      assert WithClause("") + SpaceClause(space) == SpaceClause(space);
      assert SpaceClause(space)[1] == 'T' && " WHERE "[1] == 'W' && " WITH ("[1] == 'W';
      ReadSpaceAt(space);
    }
  }

  /** The three optional clauses can be told apart, but for an ending of the condition. */
  lemma ReadClausesAt(d: DbIndex)
    requires CutWord(d.where_, WITH).None? && ')' !in d.with_ && (d.tablespace == "" || Identifier(d.tablespace))
    ensures ReadClauses(Clauses(d)) == Some((Canonical(d).where_, Canonical(d).with_, Canonical(d).tablespace))
  {
    if d.where_ == "" {
      assert Clauses(d) == WithClause(d.with_) + SpaceClause(d.tablespace);
      ReadNoWhere(d.with_, d.tablespace);
    } else if d.with_ != "" {
      ReadWhereWith(d.where_, d.with_, d.tablespace);
    } else {
      assert Clauses(d) == WhereClause(d.where_) + SpaceClause(d.tablespace);
      ReadWhereOnly(d.where_, d.tablespace);
      if d.tablespace != "" {
        SplitSpaceAt(d.where_, d.tablespace);
      } else {
        assert d.where_ + SpaceClause("") == d.where_;
        SplitSpaceWhole(d.where_);
      }
    }
  }

  lemma SplitSpaceWhole(s: string)
    ensures SplitSpace(s).0 == s <==> SplitSpace(s).1 == ""
  {
  }

  lemma {:induction false} ReadCommasAt(parts: seq<string>)
    requires parts != [] && forall p <- parts :: ',' !in p
    ensures ReadCommas(Commas(parts)) == Some(parts)
  {
    if |parts| == 1 {
      SplitFree(parts[0], ',');
      assert [parts[0]] == parts;
    } else {
      assert forall p <- parts[1..] :: p in parts;
      ReadCommasAt(parts[1..]);
      assert Commas(parts) == parts[0] + ", " + Commas(parts[1..]);
      ReadCommasCons(parts[0], Commas(parts[1..]));
      assert [parts[0]] + parts[1..] == parts;
    }
  }

  lemma ReadCommasCons(first: string, rest: string)
    requires ',' !in first && ReadCommas(rest).Some?
    ensures ReadCommas(first + ", " + rest) == Some([first] + ReadCommas(rest).value)
  {
    var pieces := Split(rest, ',');
    assert first + ", " + rest == first + [','] + ([' '] + rest);
    SplitConcat(first, [' '] + rest, ',');
    SplitFree(first, ',');
    assert ([' '] + rest)[1..] == rest;
    assert Split([' '] + rest, ',') == [[' '] + pieces[0]] + pieces[1..];
    var all := [first] + ([[' '] + pieces[0]] + pieces[1..]);
    StripAt(" ", pieces[0]);
    assert all[1] == " " + pieces[0] && [pieces[0]] + all[2..] == pieces;
  }

  lemma ReadIncludeAt(d: DbIndex)
    requires forall c <- d.include_ :: Identifier(c)
    ensures ReadInclude(IncludeClause(d.include_) + Clauses(d)) == Some((d.include_, Clauses(d)))
  {
    if d.include_ == [] {
      assert IncludeClause([]) + Clauses(d) == Clauses(d);
      NotInclude(d);
    } else {
      var inside := Commas(d.include_);
      assert IncludeClause(d.include_) + Clauses(d) == " INCLUDE (" + (inside + [')'] + Clauses(d));
      StripAt(" INCLUDE (", inside + [')'] + Clauses(d));
      CommasFree(d.include_, ')');
      CutAt(inside, ')', Clauses(d));
      ReadCommasAt(d.include_);
    }
  }

  lemma NotInclude(d: DbIndex)
    ensures Strip(Clauses(d), " INCLUDE (").None?
  {
    assert " INCLUDE ("[1] == 'I';
    assert |Clauses(d)| > 1 ==> Clauses(d)[1] == 'W' || Clauses(d)[1] == 'T';
  }

  lemma {:induction false} CommasFree(parts: seq<string>, c: char)
    requires (forall p <- parts :: c !in p) && c != ',' && c != ' '
    ensures c !in Commas(parts)
  {
    if |parts| > 1 {
      CommasFree(parts[1..], c);
    }
  }

  lemma ColumnAt(col: string, opClass: string)
    requires Identifier(col) && (opClass == "" || Identifier(opClass))
    ensures ReadColumn(Column(col, opClass)) == (col, opClass)
    ensures ',' !in Column(col, opClass) && ')' !in Column(col, opClass)
  {
    if opClass == "" {
      CutNone(col, ' ');
    } else {
      CutAt(col, ' ', opClass);
      assert Column(col, opClass) == col + [' '] + opClass;
    }
  }

  lemma ReadColumnsAt(cols: seq<string>, opClass: string)
    requires cols != [] && (forall c <- cols :: Identifier(c)) && (opClass == "" || Identifier(opClass))
    ensures var items := Columns(cols, opClass);
      ReadCommas(Commas(items)) == Some(items) && ')' !in Commas(items) && ReadColumnsOf(items) == Some((cols, opClass))
  {
    var items := Columns(cols, opClass);
    forall i | 0 <= i < |items|
      ensures ReadColumn(items[i]) == (cols[i], opClass) && ',' !in items[i] && ')' !in items[i]
    {
      ColumnAt(cols[i], opClass);
    }
    ReadCommasAt(items);
    CommasFree(items, ')');
    assert seq(|items|, i requires 0 <= i < |items| => ReadColumn(items[i]).0) == cols;
  }

  lemma ReadWordAt(after: string, word: string, rest: string)
    requires ' ' !in word
    ensures ReadWord(after + word + " " + rest, after) == Some((word, rest))
  {
    assert after + word + " " + rest == after + (word + [' '] + rest);
    StripAt(after, word + [' '] + rest);
    CutAt(word, ' ', rest);
  }

  lemma ReadHeadAt(table: string, d: DbIndex, rest: string)
    requires ' ' !in table && ' ' !in d.name && ' ' !in d.method_
    ensures ReadHead("CREATE "
      + (Flag("UNIQUE ", d.unique) + (Flag("CONCURRENTLY ", d.concurrent) + (IndexHead(table, d) + rest))))
         == Some(Head(d.unique, d.concurrent, d.name, table, d.method_, rest))
  {
    var s5 := "(" + rest;
    var s4 := "USING " + d.method_ + " " + s5;
    var s3 := "ON " + table + " " + s4;
    var s2 := "INDEX " + d.name + " " + s3;
    var s1 := Flag("CONCURRENTLY ", d.concurrent) + s2;
    var s0 := Flag("UNIQUE ", d.unique) + s1;
    HeadText(table, d, rest);
    StripAt("CREATE ", s0);
    assert s2[0] == 'I' && s1[0] != 'U';
    FlagAt("UNIQUE ", d.unique, s1);
    FlagAt("CONCURRENTLY ", d.concurrent, s2);
    ReadWordAt("INDEX ", d.name, s3);
    ReadWordAt("ON ", table, s4);
    ReadWordAt("USING ", d.method_, s5);
    StripAt("(", rest);
    assert "" + s1 == s1 && "" + s2 == s2;
  }

  lemma HeadText(table: string, d: DbIndex, rest: string)
    ensures IndexHead(table, d) + rest
         == "INDEX " + d.name + " " + ("ON " + table + " " + ("USING " + d.method_ + " " + ("(" + rest)))
  {
    var t1 := "INDEX " + d.name;
    var t2 := t1 + " ON " + table;
    var t3 := t2 + " USING " + d.method_;
    var s5 := "(" + rest;
    var s4 := "USING " + d.method_ + " " + s5;
    Spaced(t3, "(", "", rest);
    Spaced(t2, "USING ", d.method_, " " + s5);
    Spaced(t1, "ON ", table, " " + s4);
  }

  lemma Spaced(before: string, key: string, word: string, after: string)
    ensures before + (" " + key) + word + after == before + " " + (key + word + after)
  {
    Cat(before, " ", key);
    Cat(before + " " + key, word, after);
    Cat(before + " ", key, word + after);
    Cat(key, word, after);
  }

  lemma FlagAt(word: string, set_: bool, rest: string)
    requires word == "UNIQUE " || word == "CONCURRENTLY "
    requires rest != "" && rest[0] != word[0]
    ensures Strip(Flag(word, set_) + rest, word) == if set_ then Some(rest) else None
  {
    if set_ {
      StripAt(word, rest);
    } else {
      assert "" + rest == rest;
    }
  }

  /** Every well-formed definition's statement reads back as its table and canonical form; so as
      the definition itself exactly unless its condition ends like a TABLESPACE clause. */
  lemma RoundTripIff(table: string, d: DbIndex)
    requires WellFormed(table, d)
    ensures Parse(Print(table, d)) == Some((table, Canonical(d)))
    ensures Parse(Print(table, d)) == Some((table, d)) <==> !EndsLikeTablespace(d)
  {
    var items := Columns(d.columns, d.opClass);
    var tail := IncludeClause(d.include_) + Clauses(d);
    ReadHeadAt(table, d, Body(d));
    Cat(Commas(items), ")", tail);
    ReadColumnsAt(d.columns, d.opClass);
    CutAt(Commas(items), ')', tail);
    ReadIncludeAt(d);
    ReadClausesAt(d);
  }

  lemma SplitSpaceCase(s: string) returns (i: nat)
    requires SplitSpace(s).1 != ""
    ensures |" TABLESPACE"| < i < |s| && s[i] == ' ' && s[i - |" TABLESPACE"|..i] == " TABLESPACE"
    ensures SplitSpace(s) == (s[..i - |" TABLESPACE"|], s[i + 1..]) && Identifier(s[i + 1..])
  {
    i := LastSpace(s).value;
    LastSpaceIs(s);
  }

  lemma Reassembled(s: string, i: nat)
    requires |" TABLESPACE"| <= i < |s| - 1 && s[i] == ' ' && s[i - |" TABLESPACE"|..i] == " TABLESPACE"
    ensures s == s[..i - |" TABLESPACE"|] + SpaceClause(s[i + 1..])
  {
    SpaceText(s[i + 1..]);
    InThree(s, i - |" TABLESPACE"|, i);
  }

  lemma SplitSpaceBack(s: string)
    requires SplitSpace(s).1 != ""
    ensures SplitSpace(s).0 != "" && Identifier(SplitSpace(s).1)
    ensures s == SplitSpace(s).0 + SpaceClause(SplitSpace(s).1)
  {
    var i := SplitSpaceCase(s);
    Reassembled(s, i);
  }

  lemma InThree(s: string, i: nat, j: nat)
    requires i <= j < |s| && s[j] == ' '
    ensures s == s[..i] + (s[i..j] + (" " + s[j + 1..]))
  {
  }

  lemma {:induction false} LastSpaceIs(s: string)
    requires LastSpace(s).Some?
    ensures s[LastSpace(s).value] == ' '
  {
    if s[|s| - 1] != ' ' {
      LastSpaceIs(s[..|s| - 1]);
    }
  }

  lemma CanonicalPrints(table: string, d: DbIndex)
    ensures Print(table, Canonical(d)) == Print(table, d)
  {
    if EndsLikeTablespace(d) {
      SplitSpaceBack(d.where_);
      var v, space := SplitSpace(d.where_).0, SplitSpace(d.where_).1;
      Cat(" WHERE ", v, SpaceClause(space));
      assert Clauses(Canonical(d)) == Clauses(d);
    }
  }

  /** Two definitions print alike exactly when their tables and canonical forms agree. */
  lemma PrintInjective(table: string, d: DbIndex, table': string, d': DbIndex)
    requires WellFormed(table, d) && WellFormed(table', d')
    ensures Print(table, d) == Print(table', d') <==> table == table' && Canonical(d) == Canonical(d')
  {
    RoundTripIff(table, d);
    RoundTripIff(table', d');
    CanonicalPrints(table, d);
    CanonicalPrints(table', d');
  }

  /** A condition, not empty, and then a TABLESPACE clause. */
  ghost predicate HasSpaceEnding(where_: string) {
    exists v, space :: v != "" && Identifier(space) && where_ == v + SpaceClause(space)
  }

  lemma SpaceEndingIff(where_: string)
    ensures HasSpaceEnding(where_) <==> SplitSpace(where_).1 != ""
  {
    if HasSpaceEnding(where_) {
      var v, space :| v != "" && Identifier(space) && where_ == v + SpaceClause(space);
      SplitSpaceAt(v, space);
    }
    if SplitSpace(where_).1 != "" {
      SplitSpaceBack(where_);
    }
  }

  predicate Ambiguous(d: DbIndex) {
    d.where_ != "" && d.with_ == "" && (d.tablespace != "" || SplitSpace(d.where_).1 != "")
  }

  lemma OtherReading(table: string, d: DbIndex) returns (d': DbIndex)
    requires WellFormed(table, d) && Ambiguous(d)
    ensures WellFormed(table, d') && d' != d && Print(table, d') == Print(table, d)
  {
    if d.tablespace != "" {
      d' := d.(where_ := d.where_ + SpaceClause(d.tablespace), tablespace := "");
      AmbiguousPair(table, d.(tablespace := ""), d.tablespace);
      NoBracket(d.tablespace);
      CutWordNone(d.where_, SpaceClause(d.tablespace));
    } else {
      d' := Canonical(d);
      CanonicalWellFormed(table, d);
      CanonicalPrints(table, d);
    }
  }

  lemma OneReading(table: string, d: DbIndex, table': string, d': DbIndex)
    requires WellFormed(table, d) && WellFormed(table', d') && Print(table', d') == Print(table, d) && !Ambiguous(d)
    ensures table' == table && d' == d
  {
    PrintInjective(table, d, table', d');
  }

  /** The statement leaves the definition open exactly when there is a condition, there are no
      storage parameters, and a TABLESPACE clause stands at the end: as a clause of its own, or as
      the end of the condition. */
  lemma AmbiguousIff(table: string, d: DbIndex)
    requires WellFormed(table, d)
    ensures (exists table', d' ::
      WellFormed(table', d') && (table', d') != (table, d) && Print(table', d') == Print(table, d))
      <==> d.where_ != "" && d.with_ == "" && (d.tablespace != "" || HasSpaceEnding(d.where_))
  {
    SpaceEndingIff(d.where_);
    if Ambiguous(d) {
      var d' := OtherReading(table, d);
      assert WellFormed(table, d') && (table, d') != (table, d);
    } else {
      forall table', d' | WellFormed(table', d') && Print(table', d') == Print(table, d)
        ensures (table', d') == (table, d)
      {
        OneReading(table, d, table', d');
      }
    }
  }

  lemma {:induction false} CutWordPrefix(a: string, rest: string)
    requires CutWord(a + rest, WITH).None?
    ensures CutWord(a, WITH).None?
  {
    if a != "" {
      assert (a + rest)[1..] == a[1..] + rest;
      CutWordPrefix(a[1..], rest);
    }
  }

  lemma CanonicalWellFormed(table: string, d: DbIndex)
    requires WellFormed(table, d)
    ensures WellFormed(table, Canonical(d)) && Canonical(d).name == d.name
  {
    if EndsLikeTablespace(d) {
      SplitSpaceBack(d.where_);
      CutWordPrefix(SplitSpace(d.where_).0, SpaceClause(SplitSpace(d.where_).1));
    }
  }

  lemma SameClauses(table: string, d: DbIndex, d': DbIndex)
    requires d' == d.(where_ := d'.where_, tablespace := d'.tablespace) && Clauses(d') == Clauses(d)
    ensures Print(table, d') == Print(table, d)
  {
  }

  lemma MovedClause(d: DbIndex, space: string)
    requires d.where_ != "" && d.with_ == "" && d.tablespace == "" && space != ""
    ensures Clauses(d.(where_ := d.where_ + SpaceClause(space))) == Clauses(d.(tablespace := space))
  {
    Cat(" WHERE ", d.where_, SpaceClause(space));
    assert WhereClause(d.where_) + "" == WhereClause(d.where_);
  }

  /** The other definition: the clause moved into the condition. */
  lemma AmbiguousPair(table: string, d: DbIndex, space: string)
    requires d.where_ != "" && d.with_ == "" && d.tablespace == "" && Identifier(space)
    ensures Print(table, d.(where_ := d.where_ + SpaceClause(space))) == Print(table, d.(tablespace := space))
    ensures EndsLikeTablespace(d.(where_ := d.where_ + SpaceClause(space)))
  {
    SplitSpaceAt(d.where_, space);
    MovedClause(d, space);
    SameClauses(table, d.(tablespace := space), d.(where_ := d.where_ + SpaceClause(space)));
  }
}
