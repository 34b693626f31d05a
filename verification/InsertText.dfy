/** The INSERT statement of a COPY (src/storage/oracle_write.cpp:236-268), as text.  The writer binds
    column k to placeholder k by position (376-388).  Read back, the statement has a list of columns
    and a list of as many values, and the k-th value takes placeholder k and no other: whatever the
    names contain and however the values are wrapped. */
module InsertText {
  import opened Sequences
  import opened Text
  import opened ConnectionString
  import opened SqlText

  const DATE_FORMAT := "YYYY-MM-DD HH24:MI:SS"
  const TIMESTAMP_FORMAT := "YYYY-MM-DD HH24:MI:SS.FF"

  /** A value is passed as it is, or through a function, or through one that takes a format. */
  datatype Wrapper = Bare | Call(head: string) | FormatCall(head: string, format: string)

  function WrapperOf(oracleType: string): Wrapper {
    var type_ := Upper(oracleType);
    if type_ == "DATE" then FormatCall("TO_DATE(", DATE_FORMAT)
    else if Contains(type_, "TIMESTAMP") then FormatCall("TO_TIMESTAMP(", TIMESTAMP_FORMAT)
    else if type_ == "SDO_GEOMETRY" || type_ == "MDSYS.SDO_GEOMETRY" then Call("SDO_UTIL.FROM_WKTGEOMETRY(")
    else Bare
  }

  /** A value is passed through what the name of its column's type says, in any case. */
  lemma WrapperByName(oracleType: string)
    ensures WrapperOf(oracleType) ==
            if SameUpToCase(oracleType, "DATE") then FormatCall("TO_DATE(", DATE_FORMAT)
            else if Mentions(oracleType, "TIMESTAMP") then FormatCall("TO_TIMESTAMP(", TIMESTAMP_FORMAT)
            else if SameUpToCase(oracleType, "SDO_GEOMETRY") || SameUpToCase(oracleType, "MDSYS.SDO_GEOMETRY") then
              Call("SDO_UTIL.FROM_WKTGEOMETRY(")
            else Bare
  {
    UpperIs(oracleType, "DATE");
    MentionsIff(oracleType, "TIMESTAMP");
    UpperIs(oracleType, "SDO_GEOMETRY");
    UpperIs(oracleType, "MDSYS.SDO_GEOMETRY");
  }

  function Wrappers(types: seq<string>): (ws: seq<Wrapper>)
    ensures |ws| == |types| && forall i :: 0 <= i < |types| ==> ws[i] == WrapperOf(types[i])
  {
    seq(|types|, i requires 0 <= i < |types| => WrapperOf(types[i]))
  }

  // ---------------------------------------------------------------- the statement in pieces

  const INSERT_INTO := "INSERT /*+ APPEND_VALUES */ INTO "

  function TargetPieces(schema: string, object_: string): seq<Piece> {
    (if schema != "" then [Tok(Ident(schema)), Words(".")] else []) + [Tok(Ident(object_))]
  }

  function ColumnItems(columns: seq<string>): (items: seq<seq<Piece>>)
    ensures |items| == |columns| && forall i :: 0 <= i < |columns| ==> items[i] == [Tok(Ident(columns[i]))]
  {
    seq(|columns|, i requires 0 <= i < |columns| => [Tok(Ident(columns[i]))])
  }

  function ValuePiece(w: Wrapper, k: nat): seq<Piece> {
    match w
    case Bare => [Tok(Placeholder(k))]
    case Call(head) => [Words(head), Tok(Placeholder(k)), Words(")")]
    case FormatCall(head, format) => [Words(head), Tok(Placeholder(k)), Words(", "), Tok(Literal(format)), Words(")")]
  }

  function ValueItems(ws: seq<Wrapper>): (items: seq<seq<Piece>>)
    ensures |items| == |ws| && forall i :: 0 <= i < |ws| ==> items[i] == ValuePiece(ws[i], i + 1)
  {
    seq(|ws|, i requires 0 <= i < |ws| => ValuePiece(ws[i], i + 1))
  }

  function InsertPieces(schema: string, object_: string, columns: seq<string>, ws: seq<Wrapper>): seq<Piece> {
    [Words(INSERT_INTO)] + TargetPieces(schema, object_) + [Words(" (")] + ListPieces(ColumnItems(columns), |columns|)
    + [Words(") VALUES (")] + ListPieces(ValueItems(ws), |ws|) + [Words(")")]
  }

  // ---------------------------------------------------------------- the pieces printed

  lemma FormatCallPrints(head: string, k: nat, format: string)
    ensures PrintAll([Words(head), Tok(Placeholder(k)), Words(", "), Tok(Literal(format)), Words(")")])
            == head + (":" + Digits(k)) + ", '" + format + "')"
  {
    var a, b, c := Words(head), Tok(Placeholder(k)), Words(", ");
    var d, e := Tok(Literal(format)), Words(")");
    ThreePrints(a, b, c);
    PrintLast([a, b, c], d);
    PrintLast([a, b, c, d], e);
    assert [a, b, c] + [d] == [a, b, c, d];
    assert [a, b, c, d] + [e] == [a, b, c, d, e];
    FormatTail(head + (":" + Digits(k)), format);
  }

  lemma FormatTail(call: string, format: string)
    ensures call + ", " + ("'" + format + "'") + ")" == call + ", '" + format + "')"
  {
  }

  lemma TargetPrints(head: seq<Piece>, schema: string, object_: string)
    ensures PrintAll(head + TargetPieces(schema, object_))
            == (if schema != "" then PrintAll(head) + (WriteQuoted(schema) + ".") else PrintAll(head)) + WriteQuoted(object_)
  {
    var name, dot, last := Tok(Ident(schema)), Words("."), Tok(Ident(object_));
    if schema != "" {
      PrintLast(head, name);
      PrintLast(head + [name], dot);
      PrintLast(head + [name] + [dot], last);
      assert head + TargetPieces(schema, object_) == head + [name] + [dot] + [last];
      Associative(PrintAll(head), WriteQuoted(schema), ".");
    } else {
      PrintLast(head, last);
      assert head + TargetPieces(schema, object_) == head + [last];
    }
  }

  // ---------------------------------------------------------------- two tokens never touch

  /** The text around a value opens one parenthesis before it, and can be printed. */
  predicate Sound(w: Wrapper) {
    && (!w.Bare? ==> Printable(Words(w.head)) && Puncts(w.head) == [Open])
    && (w.FormatCall? ==> '\'' !in w.format)
  }

  lemma FormatsAreText()
    ensures '\'' !in DATE_FORMAT && '\'' !in TIMESTAMP_FORMAT
  {
  }

  lemma WrappersArePrintable()
    ensures Printable(Words("TO_DATE(")) && Printable(Words("TO_TIMESTAMP(")) && Printable(Words("SDO_UTIL.FROM_WKTGEOMETRY("))
  {
  }

  lemma DateHead(head: string)
    requires head == "TO_DATE("
    ensures Puncts(head) == [Open]
  {
    HeadOpens(head);
  }

  lemma TimestampHead(head: string)
    requires head == "TO_TIMESTAMP("
    ensures Puncts(head) == [Open]
  {
    HeadOpens(head);
  }

  lemma GeometryHead(head: string)
    requires head == "SDO_UTIL.FROM_WKTGEOMETRY("
    ensures Puncts(head) == [Open]
  {
    HeadOpens(head);
  }

  lemma WrapperIsSound(oracleType: string)
    ensures Sound(WrapperOf(oracleType))
  {
    FormatsAreText();
    WrappersArePrintable();
    var w := WrapperOf(oracleType);
    if w.FormatCall? && w.format == DATE_FORMAT {
      DateHead(w.head);
    } else if w.FormatCall? {
      TimestampHead(w.head);
    } else if w.Call? {
      GeometryHead(w.head);
    }
  }

  lemma PunctuationIsPrintable()
    ensures Printable(Words(" (")) && Printable(Words(") VALUES (")) && Printable(Words(")"))
  {
  }

  lemma InsertIntoIsPrintable()
    ensures Printable(Words(INSERT_INTO))
  {
  }

  lemma ValueIsSpaced(w: Wrapper, k: nat)
    requires Sound(w)
    ensures Spaced(ValuePiece(w, k))
  {
    PunctuationIsPrintable();
    CommaIsPunct();
  }

  lemma SpacedInsert(target: seq<Piece>, columns: seq<Piece>, values: seq<Piece>)
    requires Spaced(target) && Spaced(columns) && Spaced(values)
    ensures Spaced([Words(INSERT_INTO)] + target + [Words(" (")] + columns + [Words(") VALUES (")] + values + [Words(")")])
  {
    InsertIntoIsPrintable();
    PunctuationIsPrintable();
    var ps := [Words(INSERT_INTO)];
    SpacedBoth(ps, target);
    ps := ps + target;
    SpacedBoth(ps, [Words(" (")]);
    ps := ps + [Words(" (")];
    SpacedBoth(ps, columns);
    ps := ps + columns;
    SpacedBoth(ps, [Words(") VALUES (")]);
    ps := ps + [Words(") VALUES (")];
    SpacedBoth(ps, values);
    SpacedBoth(ps + values, [Words(")")]);
  }

  lemma InsertIsSpaced(schema: string, object_: string, columns: seq<string>, ws: seq<Wrapper>)
    requires forall i :: 0 <= i < |ws| ==> Sound(ws[i])
    ensures Spaced(InsertPieces(schema, object_, columns, ws))
  {
    SpacedList(ColumnItems(columns), |columns|);
    forall i | 0 <= i < |ws| ensures Spaced(ValueItems(ws)[i]) {
      ValueIsSpaced(ws[i], i + 1);
    }
    SpacedList(ValueItems(ws), |ws|);
    SpacedInsert(TargetPieces(schema, object_), ListPieces(ColumnItems(columns), |columns|), ListPieces(ValueItems(ws), |ws|));
  }

  // ---------------------------------------------------------------- the tokens of the statement

  /** One value of the statement: the placeholder, and what it is passed through. */
  function Passed(w: Wrapper, k: nat): seq<Token> {
    match w
    case Bare => [Placeholder(k)]
    case Call(_) => [Open, Placeholder(k), Close]
    case FormatCall(_, format) => [Open, Placeholder(k), Comma, Literal(format), Close]
  }

  lemma PassedIsOneItem(w: Wrapper, k: nat)
    ensures OneItem(Passed(w, k))
  {
    var ts := Passed(w, k);
    match w
    case Bare => OneTokenItem(ts);
    case Call(_) =>
      assert Depth(ts, 0) == 0 && Depth(ts, 1) == 1 && Depth(ts, 2) == 1 && Depth(ts, 3) == 0;
      assert Nested(ts, 0) && Nested(ts, 1) && Nested(ts, 2) && Nested(ts, 3);
    case FormatCall(_, _) =>
      assert Depth(ts, 0) == 0 && Depth(ts, 1) == 1 && Depth(ts, 2) == 1 && Depth(ts, 3) == 1;
      assert Depth(ts, 4) == 1 && Depth(ts, 5) == 0;
      assert Nested(ts, 0) && Nested(ts, 1) && Nested(ts, 2) && Nested(ts, 3) && Nested(ts, 4) && Nested(ts, 5);
  }

  lemma OpenIsPunct(s: string)
    requires s == " ("
    ensures Puncts(s) == [Open]
  {
    HeadOpens(s);
  }

  lemma BetweenLists(s: string)
    requires s == ") VALUES ("
    ensures Puncts(s) == [Close, Open]
  {
    var a, b := s[..1], s[1..];
    assert s == a + b;
    PunctsAppend(a, b);
    CloseIsPunct(a);
    HeadOpens(b);
    assert [Close] + [Open] == [Close, Open];
  }

  lemma InsertIntoIsWords(s: string)
    requires s == INSERT_INTO
    ensures Puncts(s) == []
  {
    NoPuncts(s, |s|);
  }

  lemma FiveTokens(a: Piece, b: Piece, c: Piece, d: Piece, e: Piece)
    ensures TokensOf([a, b, c, d, e]) == TokenOf(a) + TokenOf(b) + TokenOf(c) + TokenOf(d) + TokenOf(e)
  {
    ThreeTokens(a, b, c);
    TokensLast([a, b, c], d);
    TokensLast([a, b, c, d], e);
    assert [a, b, c] + [d] == [a, b, c, d] && [a, b, c, d] + [e] == [a, b, c, d, e];
  }

  lemma ValueTokens(w: Wrapper, k: nat)
    requires Sound(w)
    ensures TokensOf(ValuePiece(w, k)) == Passed(w, k)
  {
    var value, close := Tok(Placeholder(k)), Words(")");
    CloseIsPunct(close.text);
    match w
    case Bare => TokensOne([value]);
    case Call(head) => ThreeTokens(Words(head), value, close);
    case FormatCall(head, format) =>
      CommaIsPunct();
      FiveTokens(Words(head), value, Words(", "), Tok(Literal(format)), close);
  }

  function TargetNames(schema: string, object_: string): seq<string> {
    (if schema != "" then [schema] else []) + [object_]
  }

  lemma TargetTokens(schema: string, object_: string)
    ensures TokensOf(TargetPieces(schema, object_)) == Idents(TargetNames(schema, object_))
  {
    var name, dot, last := Tok(Ident(schema)), Words("."), Tok(Ident(object_));
    TokensOne([last]);
    if schema != "" {
      DotIsWords(dot.text);
      TokensOne([name]);
      TokensLast([name], dot);
      TokensLast([name] + [dot], last);
      assert TargetPieces(schema, object_) == [name] + [dot] + [last];
    } else {
      assert TargetPieces(schema, object_) == [last];
    }
  }

  lemma JoinTokens(target: seq<Piece>, columns: seq<Piece>, values: seq<Piece>)
    ensures TokensOf([Words(INSERT_INTO)] + target + [Words(" (")] + columns + [Words(") VALUES (")] + values + [Words(")")])
            == TokensOf(target) + InParens(TokensOf(columns)) + InParens(TokensOf(values))
  {
    var start, open, between, close := Words(INSERT_INTO), Words(" ("), Words(") VALUES ("), Words(")");
    InsertIntoIsWords(start.text);
    OpenIsPunct(open.text);
    BetweenLists(between.text);
    CloseIsPunct(close.text);
    SixParts(start, target, open, columns, between, values, close);
  }

  lemma SixParts(start: Piece, target: seq<Piece>, open: Piece, columns: seq<Piece>, between: Piece, values: seq<Piece>, close: Piece)
    requires TokenOf(start) == [] && TokenOf(open) == [Open] && TokenOf(between) == [Close, Open] && TokenOf(close) == [Close]
    ensures TokensOf([start] + target + [open] + columns + [between] + values + [close])
            == TokensOf(target) + InParens(TokensOf(columns)) + InParens(TokensOf(values))
  {
    var ps := [start];
    TokensOne(ps);
    TokensAppend(ps, target);
    ps := ps + target;
    assert [] + TokensOf(target) == TokensOf(target);
    TokensLast(ps, open);
    ps := ps + [open];
    TokensAppend(ps, columns);
    ps := ps + columns;
    TokensLast(ps, between);
    ps := ps + [between];
    TokensAppend(ps, values);
    ps := ps + values;
    TokensLast(ps, close);
    Brackets(TokensOf(target), TokensOf(columns), TokensOf(values));
  }

  lemma Brackets(t: seq<Token>, c: seq<Token>, v: seq<Token>)
    ensures t + [Open] + c + [Close, Open] + v + [Close] == t + InParens(c) + InParens(v)
  {
  }

  lemma ColumnTokens(columns: seq<string>, names: seq<seq<Token>>)
    requires |names| == |columns| && forall i :: 0 <= i < |names| ==> names[i] == [Ident(columns[i])]
    ensures TokensOf(ListPieces(ColumnItems(columns), |columns|)) == Listed(names, |names|)
  {
    forall i | 0 <= i < |columns| ensures TokensOf(ColumnItems(columns)[i]) == names[i] {
      TokensOne(ColumnItems(columns)[i]);
    }
    ListTokens(ColumnItems(columns), names, |columns|);
  }

  lemma ValueAt(ws: seq<Wrapper>, values: seq<seq<Token>>, i: nat)
    requires |values| == |ws| && i < |ws| && Sound(ws[i]) && values[i] == Passed(ws[i], i + 1)
    ensures TokensOf(ValueItems(ws)[i]) == values[i]
  {
    ValueTokens(ws[i], i + 1);
  }

  lemma ValuesTokens(ws: seq<Wrapper>, values: seq<seq<Token>>)
    requires |values| == |ws| && forall i :: 0 <= i < |ws| ==> Sound(ws[i]) && values[i] == Passed(ws[i], i + 1)
    ensures TokensOf(ListPieces(ValueItems(ws), |ws|)) == Listed(values, |values|)
  {
    forall i | 0 <= i < |ws| ensures TokensOf(ValueItems(ws)[i]) == values[i] {
      ValueAt(ws, values, i);
    }
    ListTokens(ValueItems(ws), values, |ws|);
  }

  lemma InsertTokens(schema: string, object_: string, columns: seq<string>, ws: seq<Wrapper>, names: seq<Token>, values: seq<Token>)
    requires TokensOf(ListPieces(ColumnItems(columns), |columns|)) == names
    requires TokensOf(ListPieces(ValueItems(ws), |ws|)) == values
    ensures TokensOf(InsertPieces(schema, object_, columns, ws))
            == Idents(TargetNames(schema, object_)) + InParens(names) + InParens(values)
  {
    TargetTokens(schema, object_);
    JoinTokens(TargetPieces(schema, object_), ListPieces(ColumnItems(columns), |columns|), ListPieces(ValueItems(ws), |ws|));
  }

  // ---------------------------------------------------------------- its outline

  lemma {:induction false} SketchNames(o: Outline, names: seq<string>, n: nat)
    requires o.depth == 0 && n <= |names|
    ensures FoldFirst(Sketch, o, Idents(names), n) == o.(outside := o.outside + Idents(names)[..n])
  {
    if n == 0 {
      assert o.outside + Idents(names)[..0] == o.outside;
    } else {
      SketchNames(o, names, n - 1);
      Grow(o.outside, Idents(names), n - 1);
    }
  }

  lemma SketchTarget(target: seq<string>)
    ensures OutlineOf(Idents(target)) == Outline(0, Idents(target), [], [])
  {
    SketchNames(BLANK, target, |target|);
    assert [] + Idents(target)[..|target|] == Idents(target);
  }

  lemma OutlineOfInsert(target: seq<string>, names: seq<seq<Token>>, values: seq<seq<Token>>)
    requires AllItems(names, |names|) && AllItems(values, |values|)
    ensures OutlineOf(Idents(target) + InParens(Listed(names, |names|)) + InParens(Listed(values, |values|)))
            == Outline(0, Idents(target), [Listed(names, |names|), Listed(values, |values|)], [])
  {
    SketchTarget(target);
    SketchTwoLists(Idents(target), Outline(0, Idents(target), [], []), names, values);
    Pair(Listed(names, |names|), Listed(values, |values|));
  }

  lemma Pair<T>(a: T, b: T)
    ensures [] + [a] + [b] == [a, b]
  {
  }

  /** The tokens of an INSERT name its target and then have two lists in parentheses: the columns,
      each a name and nothing else, and as many values, the k-th of which holds the k-th placeholder,
      no other and no name, whatever it is passed through. */
  ghost predicate AlignedTokens(ts: seq<Token>, target: seq<string>, columns: seq<string>, ws: seq<Wrapper>) {
    var o := OutlineOf(ts);
    && o.depth == 0 && o.outside == Idents(target) && |o.lists| == 2
    && |Items(o.lists[0])| == |columns| && |Items(o.lists[1])| == |ws|
    && (forall k :: 0 <= k < |columns| ==> Items(o.lists[0])[k] == [Ident(columns[k])])
    && (forall k :: 0 <= k < |ws| ==> Items(o.lists[1])[k] == Passed(ws[k], k + 1))
  }

  /** Read back from its text, the statement is that. */
  ghost predicate Aligned(sql: string, schema: string, object_: string, columns: seq<string>, types: seq<string>) {
    Whole(sql) && AlignedTokens(Tokens(sql), TargetNames(schema, object_), columns, Wrappers(types))
  }

  lemma NamesAreItems(columns: seq<string>, names: seq<seq<Token>>)
    requires |names| == |columns| && forall i :: 0 <= i < |names| ==> names[i] == [Ident(columns[i])]
    ensures AllItems(names, |names|)
  {
    forall i | 0 <= i < |names| ensures OneItem(names[i]) {
      OneTokenItem(names[i]);
    }
    EachIsItem(names, |names|);
  }

  lemma ValuesAreItems(ws: seq<Wrapper>, values: seq<seq<Token>>)
    requires |values| == |ws| && forall i :: 0 <= i < |ws| ==> values[i] == Passed(ws[i], i + 1)
    ensures AllItems(values, |values|)
  {
    forall i | 0 <= i < |values| ensures OneItem(values[i]) {
      PassedIsOneItem(ws[i], i + 1);
    }
    EachIsItem(values, |values|);
  }

  lemma TokensAligned(target: seq<string>, columns: seq<string>, ws: seq<Wrapper>, names: seq<seq<Token>>, values: seq<seq<Token>>)
    requires |names| == |columns| && forall i :: 0 <= i < |names| ==> names[i] == [Ident(columns[i])]
    requires |values| == |ws| && forall i :: 0 <= i < |ws| ==> values[i] == Passed(ws[i], i + 1)
    ensures AlignedTokens(Idents(target) + InParens(Listed(names, |names|)) + InParens(Listed(values, |values|)), target, columns, ws)
  {
    NamesAreItems(columns, names);
    ValuesAreItems(ws, values);
    OutlineOfInsert(target, names, values);
    ListedItems(names);
    ListedItems(values);
  }

  lemma PiecesAligned(schema: string, object_: string, columns: seq<string>, ws: seq<Wrapper>)
    requires forall i :: 0 <= i < |ws| ==> Sound(ws[i])
    ensures AlignedTokens(TokensOf(InsertPieces(schema, object_, columns, ws)), TargetNames(schema, object_), columns, ws)
  {
    var names: seq<seq<Token>> := seq(|columns|, i requires 0 <= i < |columns| => [Ident(columns[i])]);
    var values := seq(|ws|, i requires 0 <= i < |ws| => Passed(ws[i], i + 1));
    TokensAligned(TargetNames(schema, object_), columns, ws, names, values);
    ColumnTokens(columns, names);
    ValuesTokens(ws, values);
    InsertTokens(schema, object_, columns, ws, Listed(names, |names|), Listed(values, |values|));
  }

  /** So what is bound by position to the k-th placeholder is the value of the k-th column. */
  lemma InsertAligned(schema: string, object_: string, columns: seq<string>, types: seq<string>)
    ensures Aligned(PrintAll(InsertPieces(schema, object_, columns, Wrappers(types))), schema, object_, columns, types)
  {
    var ws := Wrappers(types);
    forall i | 0 <= i < |ws| ensures Sound(ws[i]) {
      WrapperIsSound(types[i]);
    }
    InsertIsSpaced(schema, object_, columns, ws);
    PrintedReads(InsertPieces(schema, object_, columns, ws));
    PiecesAligned(schema, object_, columns, ws);
  }

  // ---------------------------------------------------------------- the code

  method ValueExpression(oracle_type: string, k: nat) returns (value: string)
    ensures value == PrintAll(ValuePiece(WrapperOf(oracle_type), k))
  {
    var type_ := Upper(oracle_type);
    var placeholder := ":" + Digits(k);
    if type_ == "DATE" {
      value := "TO_DATE(" + placeholder + ", '" + DATE_FORMAT + "')";
      FormatCallPrints("TO_DATE(", k, DATE_FORMAT);
    } else if Contains(type_, "TIMESTAMP") {
      value := "TO_TIMESTAMP(" + placeholder + ", '" + TIMESTAMP_FORMAT + "')";
      FormatCallPrints("TO_TIMESTAMP(", k, TIMESTAMP_FORMAT);
    } else if type_ == "SDO_GEOMETRY" || type_ == "MDSYS.SDO_GEOMETRY" {
      value := "SDO_UTIL.FROM_WKTGEOMETRY(" + placeholder + ")";
      ThreePrints(Words("SDO_UTIL.FROM_WKTGEOMETRY("), Tok(Placeholder(k)), Words(")"));
    } else {
      value := placeholder;
      PrintOne([Tok(Placeholder(k))]);
    }
  }

  method AddColumnList(start: string, ghost ps: seq<Piece>, column_names: seq<string>) returns (sql: string)
    requires start == PrintAll(ps)
    ensures sql == PrintAll(ps + ListPieces(ColumnItems(column_names), |column_names|))
  {
    sql := start;
    ghost var items := ColumnItems(column_names);
    assert ps + ListPieces(items, 0) == ps;
    for i := 0 to |column_names|
      invariant sql == PrintAll(ps + ListPieces(items, i))
    {
      ItemPrints(ps, items, i);
      PrintOne([Tok(Ident(column_names[i]))]);
      if i > 0 {
        sql := sql + ", ";
      }
      sql := sql + WriteQuoted(column_names[i]);
    }
  }

  method AddValueList(start: string, ghost ps: seq<Piece>, oracle_types: seq<string>) returns (sql: string)
    requires start == PrintAll(ps)
    ensures sql == PrintAll(ps + ListPieces(ValueItems(Wrappers(oracle_types)), |oracle_types|))
  {
    sql := start;
    ghost var items := ValueItems(Wrappers(oracle_types));
    assert ps + ListPieces(items, 0) == ps;
    for i := 0 to |oracle_types|
      invariant sql == PrintAll(ps + ListPieces(items, i))
    {
      ItemPrints(ps, items, i);
      if i > 0 {
        sql := sql + ", ";
      }
      var value := ValueExpression(oracle_types[i], i + 1);
      sql := sql + value;
    }
  }

  /** OracleWriteInitGlobal, up to the statement it prepares: its text, and what reading it gives. */
  method GenerateInsert(schema_name: string, object_name: string, column_names: seq<string>, oracle_types: seq<string>)
    returns (sql: string)
    requires |column_names| == |oracle_types|
    ensures sql == PrintAll(InsertPieces(schema_name, object_name, column_names, Wrappers(oracle_types)))
    ensures Aligned(sql, schema_name, object_name, column_names, oracle_types)
  {
    sql := INSERT_INTO;
    ghost var ps := [Words(INSERT_INTO)];
    PrintOne(ps);
    TargetPrints(ps, schema_name, object_name);
    if schema_name != "" {
      sql := sql + (WriteQuoted(schema_name) + ".");
    }
    ps := ps + TargetPieces(schema_name, object_name);
    PrintLast(ps, Words(" ("));
    sql := sql + WriteQuoted(object_name) + " (";
    ps := ps + [Words(" (")];
    sql := AddColumnList(sql, ps, column_names);
    ps := ps + ListPieces(ColumnItems(column_names), |column_names|);
    PrintLast(ps, Words(") VALUES ("));
    sql := sql + ") VALUES (";
    ps := ps + [Words(") VALUES (")];
    sql := AddValueList(sql, ps, oracle_types);
    ps := ps + ListPieces(ValueItems(Wrappers(oracle_types)), |oracle_types|);
    PrintLast(ps, Words(")"));
    sql := sql + ")";
    InsertAligned(schema_name, object_name, column_names, oracle_types);
  }
}
