/** The SELECT statement of a table scan (src/storage/oracle_table_entry.cpp:16-69, 194-240), as
    text.  Some columns are read through a conversion and renamed back.  Read back, the select list
    has one item per column: it reads that column, no other, and is named after it. */
module SelectText {
  import opened Wrappers
  import opened Sequences
  import opened Text
  import opened SqlText

  // ---------------------------------------------------------------- which columns are converted

  datatype Category =
    | Standard | Numeric | Temporal | Spatial | Vector | Json | LobClob | LobBlob | Raw | Xml | Unknown

  datatype Metadata = Metadata(category: Category, needsServerConversion: bool)

  predicate StartsWith(s: string, part: string) { part <= s }

  /** The constructor of OracleColumnMetadata. */
  function Classify(dataType: string): Metadata {
    var upper := Upper(dataType);
    if upper == "SDO_GEOMETRY" || upper == "MDSYS.SDO_GEOMETRY" then Metadata(Spatial, true)
    else if upper == "VECTOR" || StartsWith(upper, "VECTOR(") then Metadata(Vector, true)
    else if upper == "JSON" then Metadata(Json, true)
    else if upper == "BLOB" || upper == "BFILE" then Metadata(LobBlob, false)
    else if upper == "CLOB" || upper == "NCLOB" then Metadata(LobClob, false)
    else if upper == "RAW" || StartsWith(upper, "RAW(") then Metadata(Raw, false)
    else if upper == "XMLTYPE" || upper == "SYS.XMLTYPE" then Metadata(Xml, true)
    else if upper in ["NUMBER", "FLOAT", "BINARY_FLOAT", "BINARY_DOUBLE"] || StartsWith(upper, "NUMBER(") then
      Metadata(Numeric, false)
    else if upper == "DATE" || Contains(upper, "TIMESTAMP") then Metadata(Temporal, false)
    else if Contains(upper, "CHAR") || Contains(upper, "VARCHAR") then Metadata(Standard, false)
    else Metadata(Unknown, false)
  }

  predicate RequiresQueryRewrite(m: Metadata, jsonType: bool, tryNativeLobs: bool) {
    match m.category
    case Spatial => true
    case Xml => true
    case Vector => true
    case Json => jsonType
    case LobBlob => !tryNativeLobs || m.needsServerConversion
    case Raw => !tryNativeLobs || m.needsServerConversion
    case LobClob => m.needsServerConversion
    case _ => false
  }

  /** What GetConversionExpression puts before and behind the column, if anything. */
  function ConversionOf(m: Metadata, jsonType: bool): Option<(string, string)> {
    match m.category
    case Spatial => Some(("SDO_UTIL.TO_WKTGEOMETRY(", ")"))
    case Vector => Some(("VECTOR_SERIALIZE(", ")"))
    case Json => if jsonType then Some(("JSON_SERIALIZE(", " RETURNING VARCHAR2(32767))")) else None
    case Xml => Some(("XMLSERIALIZE(CONTENT ", " AS CLOB)"))
    case LobBlob => if m.needsServerConversion then Some(("RAWTOHEX(", ")")) else None
    case LobClob => if m.needsServerConversion then Some(("TO_CHAR(", ")")) else None
    case Raw => if m.needsServerConversion then Some(("RAWTOHEX(", ")")) else None
    case _ => None
  }

  /** A column as it is, or renamed to itself, or converted and renamed. */
  datatype Form = Bare | Renamed | Converted(before: string, after: string)

  function FormOf(m: Metadata, jsonType: bool, tryNativeLobs: bool): Form {
    if !RequiresQueryRewrite(m, jsonType, tryNativeLobs) then Bare
    else
      match ConversionOf(m, jsonType)
      case Some((before, after)) => Converted(before, after)
      case None => Renamed
  }

  /** A column is converted by its type alone: exactly the geometry, vector and XML types, and JSON
      on a server that has it.  Setting try_native_lobs to false is meant to have BLOB and RAW
      columns converted to hex as well; since no type needs a server conversion of them, it only
      renames them to themselves. */
  lemma ConvertedIff(dataType: string, jsonType: bool, tryNativeLobs: bool)
    ensures var m := Classify(dataType);
            var form := FormOf(m, jsonType, tryNativeLobs);
            && (form.Converted? <==> m.category in {Spatial, Vector, Xml} || (m.category == Json && jsonType))
            && (form == Renamed <==> m.category in {LobBlob, Raw} && !tryNativeLobs)
  {
  }

  predicate IsGeometry(dataType: string) {
    SameUpToCase(dataType, "SDO_GEOMETRY") || SameUpToCase(dataType, "MDSYS.SDO_GEOMETRY")
  }

  predicate IsVector(dataType: string) {
    SameUpToCase(dataType, "VECTOR") || Begins(dataType, "VECTOR(")
  }

  predicate IsJson(dataType: string) { SameUpToCase(dataType, "JSON") }

  predicate IsXml(dataType: string) {
    SameUpToCase(dataType, "XMLTYPE") || SameUpToCase(dataType, "SYS.XMLTYPE")
  }

  predicate IsBinary(dataType: string) {
    SameUpToCase(dataType, "BLOB") || SameUpToCase(dataType, "BFILE") || SameUpToCase(dataType, "RAW") || Begins(dataType, "RAW(")
  }

  lemma NamesInUpper(dataType: string, upper: string)
    requires upper == Upper(dataType)
    ensures IsGeometry(dataType) <==> upper == "SDO_GEOMETRY" || upper == "MDSYS.SDO_GEOMETRY"
    ensures IsVector(dataType) <==> upper == "VECTOR" || "VECTOR(" <= upper
    ensures IsJson(dataType) <==> upper == "JSON"
    ensures IsXml(dataType) <==> upper == "XMLTYPE" || upper == "SYS.XMLTYPE"
  {
    UpperIs(dataType, "SDO_GEOMETRY");
    UpperIs(dataType, "MDSYS.SDO_GEOMETRY");
    UpperIs(dataType, "VECTOR");
    BeginsIff(dataType, "VECTOR(");
    UpperIs(dataType, "JSON");
    UpperIs(dataType, "XMLTYPE");
    UpperIs(dataType, "SYS.XMLTYPE");
  }

  lemma BinaryInUpper(dataType: string, upper: string)
    requires upper == Upper(dataType)
    ensures IsBinary(dataType) <==> upper == "BLOB" || upper == "BFILE" || upper == "RAW" || "RAW(" <= upper
  {
    UpperIs(dataType, "BLOB");
    UpperIs(dataType, "BFILE");
    UpperIs(dataType, "RAW");
    BeginsIff(dataType, "RAW(");
  }

  predicate Initials(s: string, first: char, second: char) { |s| > 1 && s[0] == first && s[1] == second }

  /** The names of different classes begin differently. */
  lemma NamesDiffer(upper: string)
    ensures upper == "SDO_GEOMETRY" || upper == "MDSYS.SDO_GEOMETRY" ==> Initials(upper, 'S', 'D') || Initials(upper, 'M', 'D')
    ensures upper == "VECTOR" || "VECTOR(" <= upper ==> Initials(upper, 'V', 'E')
    ensures upper == "JSON" ==> Initials(upper, 'J', 'S')
    ensures upper == "XMLTYPE" || upper == "SYS.XMLTYPE" ==> Initials(upper, 'X', 'M') || Initials(upper, 'S', 'Y')
    ensures upper == "BLOB" || upper == "BFILE" ==> Initials(upper, 'B', 'L') || Initials(upper, 'B', 'F')
    ensures upper == "RAW" || "RAW(" <= upper ==> Initials(upper, 'R', 'A')
    ensures upper == "CLOB" || upper == "NCLOB" ==> Initials(upper, 'C', 'L') || Initials(upper, 'N', 'C')
  {
  }

  /** The class of a type is told by its name, in any case. */
  lemma ClassifiedByName(dataType: string)
    ensures var category := Classify(dataType).category;
            && (category == Spatial <==> IsGeometry(dataType)) && (category == Vector <==> IsVector(dataType))
            && (category == Json <==> IsJson(dataType)) && (category == Xml <==> IsXml(dataType))
            && (category in {LobBlob, Raw} <==> IsBinary(dataType))
  {
    var upper := Upper(dataType);
    NamesInUpper(dataType, upper);
    BinaryInUpper(dataType, upper);
    NamesDiffer(upper);
  }

  /** What a column is read through, by the name of its type. */
  lemma FormByName(dataType: string, jsonType: bool, tryNativeLobs: bool)
    ensures var form := FormOf(Classify(dataType), jsonType, tryNativeLobs);
            && (IsGeometry(dataType) ==> form == Converted("SDO_UTIL.TO_WKTGEOMETRY(", ")"))
            && (IsVector(dataType) ==> form == Converted("VECTOR_SERIALIZE(", ")"))
            && (IsJson(dataType) && jsonType ==> form == Converted("JSON_SERIALIZE(", " RETURNING VARCHAR2(32767))"))
            && (IsXml(dataType) ==> form == Converted("XMLSERIALIZE(CONTENT ", " AS CLOB)"))
            && (form == Renamed <==> IsBinary(dataType) && !tryNativeLobs)
            && (form.Converted? <==> IsGeometry(dataType) || IsVector(dataType) || (IsJson(dataType) && jsonType) || IsXml(dataType))
  {
    ClassifiedByName(dataType);
    ConvertedIff(dataType, jsonType, tryNativeLobs);
  }

  // ---------------------------------------------------------------- the select list in pieces

  function SelectItem(column: string, f: Form): seq<Piece> {
    var name := Tok(Ident(column));
    match f
    case Bare => [name]
    case Renamed => [name, Words(" AS "), name]
    case Converted(before, after) => [Words(before), name, Words(after + " AS "), name]
  }

  function SelectItems(columns: seq<string>, forms: seq<Form>): (items: seq<seq<Piece>>)
    requires |forms| == |columns|
    ensures |items| == |columns| && forall i :: 0 <= i < |columns| ==> items[i] == SelectItem(columns[i], forms[i])
  {
    seq(|columns|, i requires 0 <= i < |columns| => SelectItem(columns[i], forms[i]))
  }

  /** The form of every column: with conversions switched off, and for columns without metadata,
      it is bare. */
  function FormAt(metadata: seq<Metadata>, enabled: bool, jsonType: bool, tryNativeLobs: bool, i: nat): Form {
    if enabled && i < |metadata| then FormOf(metadata[i], jsonType, tryNativeLobs) else Bare
  }

  function Forms(n: nat, metadata: seq<Metadata>, enabled: bool, jsonType: bool, tryNativeLobs: bool): (forms: seq<Form>)
    ensures |forms| == n
    ensures forall i :: 0 <= i < n ==> forms[i] == FormAt(metadata, enabled, jsonType, tryNativeLobs, i)
  {
    seq(n, i requires 0 <= i < n => FormAt(metadata, enabled, jsonType, tryNativeLobs, i))
  }

  /** With conversions switched off every column is bare, and so is one without metadata; the others
      are converted by their types. */
  lemma FormsByType(n: nat, types: seq<string>, metadata: seq<Metadata>, enabled: bool, jsonType: bool, tryNativeLobs: bool)
    requires |metadata| == |types| && forall i :: 0 <= i < |types| ==> metadata[i] == Classify(types[i])
    ensures var forms := Forms(n, metadata, enabled, jsonType, tryNativeLobs);
            forall i :: 0 <= i < n ==>
              && (!enabled || i >= |types| ==> forms[i] == Bare)
              && (enabled && i < |types| ==>
                    && (forms[i] == Renamed <==> IsBinary(types[i]) && !tryNativeLobs)
                    && (forms[i].Converted? <==>
                          IsGeometry(types[i]) || IsVector(types[i]) || (IsJson(types[i]) && jsonType) || IsXml(types[i])))
  {
    forall i | 0 <= i < n && i < |types| {
      FormByName(types[i], jsonType, tryNativeLobs);
    }
  }

  function ListText(columns: seq<string>, forms: seq<Form>): string
    requires |forms| == |columns|
  {
    PrintAll(ListPieces(SelectItems(columns, forms), |columns|))
  }

  // ---------------------------------------------------------------- its tokens

  /** The text around a converted column opens one parenthesis before it, closes it behind, and can
      be printed. */
  predicate Sound(f: Form) {
    f.Converted? ==>
      && Printable(Words(f.before)) && Printable(Words(f.after + " AS "))
      && Puncts(f.before) == [Open] && Puncts(f.after + " AS ") in [[Close], [Open, Close, Close]]
  }

  lemma AsIsWords(s: string)
    requires s == " AS "
    ensures Printable(Words(s)) && Puncts(s) == []
  {
    NoPuncts(s, |s|);
  }

  lemma GeometryHead(head: string)
    requires head == "SDO_UTIL.TO_WKTGEOMETRY("
    ensures Printable(Words(head)) && Puncts(head) == [Open]
  {
    HeadOpens(head);
  }

  lemma VectorHead(head: string)
    requires head == "VECTOR_SERIALIZE("
    ensures Printable(Words(head)) && Puncts(head) == [Open]
  {
    HeadOpens(head);
  }

  lemma JsonHead(head: string)
    requires head == "JSON_SERIALIZE("
    ensures Printable(Words(head)) && Puncts(head) == [Open]
  {
    HeadOpens(head);
  }

  lemma HexHead(head: string)
    requires head == "RAWTOHEX("
    ensures Printable(Words(head)) && Puncts(head) == [Open]
  {
    HeadOpens(head);
  }

  lemma CharHead(head: string)
    requires head == "TO_CHAR("
    ensures Printable(Words(head)) && Puncts(head) == [Open]
  {
    HeadOpens(head);
  }

  lemma XmlHead(head: string)
    requires head == "XMLSERIALIZE(CONTENT "
    ensures Puncts(head) == [Open]
  {
    var a, b := "XMLSERIALIZE(", "CONTENT ";
    assert head == a + b;
    XmlWords(a, b);
    PunctsAppend(a, b);
  }

  lemma XmlWords(a: string, b: string)
    requires a == "XMLSERIALIZE(" && b == "CONTENT "
    ensures Puncts(a) == [Open] && Puncts(b) == []
  {
    HeadOpens(a);
    NoPuncts(b, |b|);
  }

  lemma XmlHeadIsPrintable(head: string)
    requires head == "XMLSERIALIZE(CONTENT "
    ensures Printable(Words(head))
  {
  }

  lemma TailIsSound(tail: string)
    requires tail == ") AS "
    ensures Printable(Words(tail)) && Puncts(tail) == [Close]
  {
    var a, b := tail[..1], tail[1..];
    assert tail == a + b && b == " AS ";
    CloseIsPunct(a);
    PunctsAppend(a, b);
    AsIsWords(b);
  }

  lemma ClobIsWords(s: string)
    requires s == " AS CLOB"
    ensures Puncts(s) == []
  {
    NoPuncts(s, |s|);
  }

  lemma XmlTailIsSound(tail: string)
    requires tail == " AS CLOB) AS "
    ensures Printable(Words(tail)) && Puncts(tail) == [Close]
  {
    var a, b := " AS CLOB", ") AS ";
    assert tail == a + b;
    ClobIsWords(a);
    PunctsAppend(a, b);
    TailIsSound(b);
  }

  lemma JsonWords(s: string)
    requires s == " RETURNING VARCHAR2("
    ensures Puncts(s) == [Open]
  {
    HeadOpens(s);
  }

  lemma NumberIsWords(s: string)
    requires s == "32767"
    ensures Puncts(s) == []
  {
    NoPuncts(s, |s|);
  }

  lemma JsonEnd(s: string)
    requires s == "32767)) AS "
    ensures Puncts(s) == [Close, Close]
  {
    var a, b, c := "32767", ")", ") AS ";
    assert s == a + (b + c);
    NumberIsWords(a);
    CloseIsPunct(b);
    TailIsSound(c);
    PunctsAppend(b, c);
    PunctsAppend(a, b + c);
  }

  lemma JsonTailIsSound(tail: string)
    requires tail == " RETURNING VARCHAR2(32767)) AS "
    ensures Puncts(tail) == [Open, Close, Close]
  {
    var a, b := " RETURNING VARCHAR2(", "32767)) AS ";
    assert tail == a + b;
    JsonWords(a);
    JsonEnd(b);
    PunctsAppend(a, b);
  }

  lemma JsonTailIsPrintable(tail: string)
    requires tail == " RETURNING VARCHAR2(32767)) AS "
    ensures Printable(Words(tail))
  {
  }

  lemma FormIsSound(m: Metadata, jsonType: bool, tryNativeLobs: bool)
    ensures Sound(FormOf(m, jsonType, tryNativeLobs))
  {
    var f := FormOf(m, jsonType, tryNativeLobs);
    if f.Converted? {
      match m.category
      case Xml =>
        XmlHead(f.before);
        XmlHeadIsPrintable(f.before);
        XmlTailIsSound(f.after + " AS ");
      case Json =>
        JsonHead(f.before);
        JsonTailIsSound(f.after + " AS ");
        JsonTailIsPrintable(f.after + " AS ");
      case Spatial => GeometryHead(f.before); TailIsSound(f.after + " AS ");
      case Vector => VectorHead(f.before); TailIsSound(f.after + " AS ");
      case LobClob => CharHead(f.before); TailIsSound(f.after + " AS ");
      case LobBlob => HexHead(f.before); TailIsSound(f.after + " AS ");
      case Raw => HexHead(f.before); TailIsSound(f.after + " AS ");
      case _ =>
    }
  }

  /** What one item of the list is read as. */
  function Reading(column: string, f: Form): seq<Token> {
    match f
    case Bare => [Ident(column)]
    case Renamed => [Ident(column), Ident(column)]
    case Converted(_, after) => [Open, Ident(column)] + Puncts(after + " AS ") + [Ident(column)]
  }

  /** An item reads column `column`, nothing else, and is named after it. */
  predicate ReadsOnly(item: seq<Token>, column: string) {
    && item != [] && item[|item| - 1] == Ident(column)
    && forall i :: 0 <= i < |item| ==> item[i] == Ident(column) || item[i] == Open || item[i] == Close
  }

  lemma ReadingIsItem(column: string, f: Form)
    requires Sound(f)
    ensures OneItem(Reading(column, f)) && ReadsOnly(Reading(column, f), column)
  {
    var ts := Reading(column, f);
    match f
    case Bare => OneTokenItem(ts);
    case Renamed =>
      assert Depth(ts, 0) == 0 && Depth(ts, 1) == 0 && Depth(ts, 2) == 0;
      assert Nested(ts, 0) && Nested(ts, 1) && Nested(ts, 2);
    case Converted(_, after) =>
      assert Depth(ts, 0) == 0 && Depth(ts, 1) == 1 && Depth(ts, 2) == 1;
      assert Nested(ts, 0) && Nested(ts, 1) && Nested(ts, 2);
      if Puncts(after + " AS ") == [Close] {
        assert ts == [Open, Ident(column), Close, Ident(column)];
        assert Depth(ts, 3) == 0 && Depth(ts, 4) == 0;
        assert Nested(ts, 3) && Nested(ts, 4);
      } else {
        assert ts == [Open, Ident(column), Open, Close, Close, Ident(column)];
        assert Depth(ts, 3) == 2 && Depth(ts, 4) == 1 && Depth(ts, 5) == 0 && Depth(ts, 6) == 0;
        assert Nested(ts, 3) && Nested(ts, 4) && Nested(ts, 5) && Nested(ts, 6);
      }
  }

  lemma ItemIsSpaced(column: string, f: Form)
    requires Sound(f)
    ensures Spaced(SelectItem(column, f))
  {
    AsIsWords(" AS ");
  }

  lemma ItemTokens(column: string, f: Form)
    requires Sound(f)
    ensures TokensOf(SelectItem(column, f)) == Reading(column, f)
  {
    var name, renames := Tok(Ident(column)), Words(" AS ");
    match f
    case Bare => TokensOne([name]);
    case Renamed =>
      AsIsWords(renames.text);
      ThreeTokens(name, renames, name);
    case Converted(before, after) =>
      FourTokens(Words(before), name, Words(after + " AS "), name);
      TwoInOne(Ident(column));
  }

  lemma TwoInOne(t: Token)
    ensures [Open] + [t] == [Open, t]
  {
  }

  // ---------------------------------------------------------------- the list

  /** A select list: one item per column, in order, that reads the column and is named after it. */
  predicate ListsColumns(ts: seq<Token>, columns: seq<string>) {
    && |Items(ts)| == |columns|
    && forall k :: 0 <= k < |columns| ==> ReadsOnly(Items(ts)[k], columns[k])
  }

  lemma ListAligned(columns: seq<string>, forms: seq<Form>)
    requires |forms| == |columns| && forall i :: 0 <= i < |forms| ==> Sound(forms[i])
    ensures var ps := ListPieces(SelectItems(columns, forms), |columns|);
            Spaced(ps) && ListsColumns(TokensOf(ps), columns)
  {
    var items := SelectItems(columns, forms);
    var parts := seq(|columns|, i requires 0 <= i < |columns| => Reading(columns[i], forms[i]));
    forall i | 0 <= i < |columns|
      ensures TokensOf(items[i]) == parts[i] && Spaced(items[i]) && OneItem(parts[i]) && ReadsOnly(parts[i], columns[i])
    {
      ItemTokens(columns[i], forms[i]);
      ItemIsSpaced(columns[i], forms[i]);
      ReadingIsItem(columns[i], forms[i]);
    }
    SpacedList(items, |columns|);
    ListTokens(items, parts, |columns|);
    EachIsItem(parts, |columns|);
    ListedItems(parts);
  }

  // ---------------------------------------------------------------- the code

  lemma ItemText(column: string, f: Form, quoted: string)
    requires quoted == WriteQuoted(column)
    ensures PrintAll(SelectItem(column, f)) ==
            match f
            case Bare => quoted
            case Renamed => quoted + " AS " + quoted
            case Converted(before, after) => before + quoted + after + " AS " + quoted
  {
    var name := Tok(Ident(column));
    match f
    case Bare => PrintOne([name]);
    case Renamed => ThreePrints(name, Words(" AS "), name);
    case Converted(before, after) =>
      ThreePrints(Words(before), name, Words(after + " AS "));
      PrintLast([Words(before), name, Words(after + " AS ")], name);
      assert SelectItem(column, f) == [Words(before), name, Words(after + " AS ")] + [name];
      Associative(before + quoted, after, " AS ");
  }

  /** GetConversionExpression. */
  method ConversionExpression(quoted_col: string, m: Metadata, jsonType: bool) returns (converted: string)
    ensures converted == match ConversionOf(m, jsonType)
                         case Some((before, after)) => before + quoted_col + after
                         case None => quoted_col
  {
    match m.category
    case Spatial => converted := "SDO_UTIL.TO_WKTGEOMETRY(" + quoted_col + ")";
    case Vector => converted := "VECTOR_SERIALIZE(" + quoted_col + ")";
    case Json =>
      if jsonType {
        return "JSON_SERIALIZE(" + quoted_col + " RETURNING VARCHAR2(32767))";
      }
      converted := quoted_col;
    case Xml => converted := "XMLSERIALIZE(CONTENT " + quoted_col + " AS CLOB)";
    case LobBlob =>
      if m.needsServerConversion {
        return "RAWTOHEX(" + quoted_col + ")";
      }
      converted := quoted_col;
    case LobClob =>
      if m.needsServerConversion {
        return "TO_CHAR(" + quoted_col + ")";
      }
      converted := quoted_col;
    case Raw =>
      if m.needsServerConversion {
        return "RAWTOHEX(" + quoted_col + ")";
      }
      converted := quoted_col;
    case _ => converted := quoted_col;
  }

  /** The loop over the columns in GetScanFunction: its text, and what reading it gives. */
  method ColumnList(columns: seq<string>, metadata: seq<Metadata>, enabled: bool, jsonType: bool, tryNativeLobs: bool)
    returns (column_list: string)
    ensures column_list == ListText(columns, Forms(|columns|, metadata, enabled, jsonType, tryNativeLobs))
    ensures Whole(column_list) && ListsColumns(Tokens(column_list), columns)
  {
    ghost var forms := Forms(|columns|, metadata, enabled, jsonType, tryNativeLobs);
    ghost var items := SelectItems(columns, forms);
    column_list := "";
    for col_idx := 0 to |columns|
      invariant column_list == PrintAll([] + ListPieces(items, col_idx))
    {
      if col_idx > 0 {
        column_list := column_list + ", ";
      }
      var quoted_col := WriteQuoted(columns[col_idx]);
      ItemPrints([], items, col_idx);
      ItemText(columns[col_idx], forms[col_idx], quoted_col);
      if enabled && col_idx < |metadata| && RequiresQueryRewrite(metadata[col_idx], jsonType, tryNativeLobs) {
        var converted := ConversionExpression(quoted_col, metadata[col_idx], jsonType);
        column_list := column_list + (converted + " AS " + quoted_col);
      } else {
        column_list := column_list + quoted_col;
      }
    }
    assert [] + ListPieces(items, |columns|) == ListPieces(items, |columns|);
    forall i | 0 <= i < |columns| ensures Sound(forms[i]) {
      if enabled && i < |metadata| {
        FormIsSound(metadata[i], jsonType, tryNativeLobs);
      }
    }
    ListAligned(columns, forms);
    PrintedReads(ListPieces(items, |columns|));
  }

  lemma SelectTokens(select: string, list: string)
    requires select == "SELECT " && Whole(list)
    ensures Whole(select + list) && Tokens(select + list) == Tokens(list)
  {
    SelectIsWords(select);
    QuietReads(select);
    Join(select, list);
    assert [] + Tokens(list) == Tokens(list);
  }

  lemma DotName(sql: string, dot: string, name: string)
    requires Whole(sql) && dot == "."
    ensures Whole(sql + dot + WriteQuoted(name)) && Tokens(sql + dot + WriteQuoted(name)) == Tokens(sql) + [Ident(name)]
  {
    DotIsWords(dot);
    ThenWords(sql, dot);
    ThenName(sql + dot, name);
  }

  lemma TableTokens(sql: string, schema: string, dot: string, table: string)
    requires Ended(sql) && dot == "."
    ensures Whole(sql + WriteQuoted(schema) + dot + WriteQuoted(table))
    ensures Tokens(sql + WriteQuoted(schema) + dot + WriteQuoted(table)) == Tokens(sql) + [Ident(schema), Ident(table)]
  {
    ThenName(sql, schema);
    DotName(sql + WriteQuoted(schema), dot, table);
    TwoBehind(Tokens(sql), Ident(schema), Ident(table));
  }

  lemma TwoBehind(ts: seq<Token>, a: Token, b: Token)
    ensures ts + [a] + [b] == ts + [a, b]
  {
  }

  lemma FromTokens(sql: string, from: string)
    requires Whole(sql) && from == " FROM "
    ensures Ended(sql + from) && Tokens(sql + from) == Tokens(sql)
  {
    FromIsWords(from);
    ThenWords(sql, from);
  }

  lemma SelectIsWords(s: string)
    requires s == "SELECT "
    ensures Printable(Words(s)) && Puncts(s) == []
  {
    NoPuncts(s, |s|);
  }

  lemma FromIsWords(s: string)
    requires s == " FROM "
    ensures Printable(Words(s)) && Puncts(s) == []
  {
    NoPuncts(s, |s|);
  }

  /** The whole query: its tokens are those of the list and then the name of the table. */
  method GenerateSelect(columns: seq<string>, metadata: seq<Metadata>, enabled: bool, jsonType: bool, tryNativeLobs: bool,
                        schema_name: string, table_name: string)
    returns (query: string)
    ensures var list := ListText(columns, Forms(|columns|, metadata, enabled, jsonType, tryNativeLobs));
            && query == "SELECT " + list + " FROM " + WriteQuoted(schema_name) + "." + WriteQuoted(table_name)
            && Whole(query) && Tokens(query) == Tokens(list) + [Ident(schema_name), Ident(table_name)]
            && ListsColumns(Tokens(list), columns)
  {
    var quoted_schema := WriteQuoted(schema_name);
    var quoted_table := WriteQuoted(table_name);
    var column_list := ColumnList(columns, metadata, enabled, jsonType, tryNativeLobs);
    query := "SELECT " + column_list;
    SelectTokens("SELECT ", column_list);
    FromTokens(query, " FROM ");
    query := query + " FROM ";
    TableTokens(query, schema_name, ".", table_name);
    query := query + quoted_schema + "." + quoted_table;
  }
}
