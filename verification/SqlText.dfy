/** SQL text and a reader of it that knows quoted names, quoted literals, numbered placeholders and
    punctuation, run character by character; and what it makes of text that is printed from pieces.
    Both statements the extension generates for tables are read with it (`InsertText`,
    `SelectText`). */
module SqlText {
  import opened Sequences
  import opened ConnectionString

  // ---------------------------------------------------------------- folding

  /** The state after the first `n` elements. */
  function FoldFirst<S, T>(f: (S, T) -> S, s: S, xs: seq<T>, n: nat): S
    requires n <= |xs|
  {
    if n == 0 then s else f(FoldFirst(f, s, xs, n - 1), xs[n - 1])
  }

  function Fold<S, T>(f: (S, T) -> S, s: S, xs: seq<T>): S { FoldFirst(f, s, xs, |xs|) }

  lemma {:induction false} FoldPrefix<S, T>(f: (S, T) -> S, s: S, a: seq<T>, b: seq<T>, n: nat)
    requires n <= |a|
    ensures FoldFirst(f, s, a + b, n) == FoldFirst(f, s, a, n)
  {
    if n > 0 {
      FoldPrefix(f, s, a, b, n - 1);
    }
  }

  lemma {:induction false} FoldSuffix<S, T>(f: (S, T) -> S, s: S, a: seq<T>, b: seq<T>, n: nat)
    requires n <= |b|
    ensures FoldFirst(f, s, a + b, |a| + n) == FoldFirst(f, Fold(f, s, a), b, n)
  {
    if n == 0 {
      FoldPrefix(f, s, a, b, |a|);
    } else {
      FoldSuffix(f, s, a, b, n - 1);
    }
  }

  lemma FoldAppend<S, T>(f: (S, T) -> S, s: S, a: seq<T>, b: seq<T>)
    ensures Fold(f, s, a + b) == Fold(f, Fold(f, s, a), b)
  {
    FoldSuffix(f, s, a, b, |b|);
  }

  lemma FoldThree<S, T>(f: (S, T) -> S, s: S, a: seq<T>, b: seq<T>, c: seq<T>)
    ensures Fold(f, s, a + b + c) == Fold(f, Fold(f, Fold(f, s, a), b), c)
  {
    FoldAppend(f, s, a, b);
    FoldAppend(f, s, a + b, c);
  }

  lemma FoldOne<S, T>(f: (S, T) -> S, s: S, xs: seq<T>)
    requires |xs| == 1
    ensures Fold(f, s, xs) == f(s, xs[0])
  {
    assert FoldFirst(f, s, xs, 0) == s;
  }

  // ---------------------------------------------------------------- reading SQL

  datatype Token =
    | Ident(name: string)
    | Literal(text: string)
    | Placeholder(number: nat)
    | Open
    | Close
    | Comma

  function Punct(c: char): seq<Token> {
    if c == '(' then [Open] else if c == ')' then [Close] else if c == ',' then [Comma] else []
  }

  datatype Kind = Name | Text

  function Quote(k: Kind): char {
    match k
    case Name => '"'
    case Text => '\''
  }

  /** Where a reader is: in plain text, in a quoted name or literal, just behind a quote that ends
      it unless it is doubled, or in the number of a placeholder. */
  datatype Mode =
    | Plain
    | Quoted(kind: Kind, acc: string)
    | Closed(kind: Kind, acc: string)
    | Number(n: nat)

  predicate Digit(c: char) { '0' <= c <= '9' }

  function Start(c: char): Mode {
    if c == '"' then Quoted(Name, "") else if c == '\'' then Quoted(Text, "") else if c == ':' then Number(0) else Plain
  }

  /** The token a mode is about to complete. */
  function Flush(m: Mode): seq<Token> {
    match m
    case Plain => []
    case Quoted(_, _) => []
    case Closed(k, acc) => [if k == Name then Ident(acc) else Literal(acc)]
    case Number(n) => [Placeholder(n)]
  }

  function Next(m: Mode, c: char): Mode {
    match m
    case Plain => Start(c)
    case Quoted(k, acc) => if c == Quote(k) then Closed(k, acc) else Quoted(k, acc + [c])
    case Closed(k, acc) => if c == Quote(k) then Quoted(k, acc + [c]) else Start(c)
    case Number(n) => if Digit(c) then Number(10 * n + (c - '0') as nat) else Start(c)
  }

  /** The tokens that reading `c` completes: the one in progress, if `c` does not continue it, and
      `c` itself if it is punctuation outside quotes. */
  function Emit(m: Mode, c: char): seq<Token> {
    match m
    case Plain => Punct(c)
    case Quoted(_, _) => []
    case Closed(k, _) => if c == Quote(k) then [] else Flush(m) + Punct(c)
    case Number(_) => if Digit(c) then [] else Flush(m) + Punct(c)
  }

  datatype Reader = Reader(mode: Mode, done: seq<Token>)

  const START := Reader(Plain, [])

  function Feed(r: Reader, c: char): Reader {
    Reader(Next(r.mode, c), r.done + Emit(r.mode, c))
  }

  /** The tokens of a text. */
  function Tokens(s: string): seq<Token> {
    var r := Fold(Feed, START, s);
    r.done + Flush(r.mode)
  }

  /** A text that ends between two tokens; and one that ends in plain text. */
  predicate Whole(s: string) { !Fold(Feed, START, s).mode.Quoted? }

  predicate Ended(s: string) { Fold(Feed, START, s).mode == Plain }

  // ---------------------------------------------------------------- text put together

  /** A character that starts no quoted token and no placeholder, and continues none. */
  predicate Neutral(c: char) { c != '"' && c != '\'' && c != ':' && !Digit(c) }

  lemma FeedBehind(m: Mode, ts: seq<Token>, c: char)
    requires !m.Quoted? && (m == Plain || Neutral(c))
    ensures Feed(Reader(m, ts), c) == Reader(Feed(START, c).mode, ts + Flush(m) + Feed(START, c).done)
  {
    Associative(ts, Flush(m), Punct(c));
    assert [] + Punct(c) == Punct(c);
  }

  lemma FeedMore(r: Reader, ts: seq<Token>, c: char)
    ensures Feed(Reader(r.mode, ts + r.done), c) == Reader(Feed(r, c).mode, ts + Feed(r, c).done)
  {
    Associative(ts, r.done, Emit(r.mode, c));
  }

  /** Behind a token a text reads as it does at the start; its first character completes the token. */
  lemma {:induction false} ReadBehind(m: Mode, ts: seq<Token>, s: string, n: nat)
    requires !m.Quoted? && 0 < n <= |s| && (m == Plain || Neutral(s[0]))
    ensures var r := FoldFirst(Feed, START, s, n);
            FoldFirst(Feed, Reader(m, ts), s, n) == Reader(r.mode, ts + Flush(m) + r.done)
  {
    if n == 1 {
      FeedBehind(m, ts, s[0]);
      assert FoldFirst(Feed, START, s, 0) == START && FoldFirst(Feed, Reader(m, ts), s, 0) == Reader(m, ts);
    } else {
      ReadBehind(m, ts, s, n - 1);
      FeedMore(FoldFirst(Feed, START, s, n - 1), ts + Flush(m), s[n - 1]);
    }
  }

  /** The tokens of a concatenation are those of its parts. */
  lemma Join(a: string, b: string)
    requires Whole(a) && Whole(b) && (Ended(a) || b == "" || Neutral(b[0]))
    ensures Whole(a + b) && Tokens(a + b) == Tokens(a) + Tokens(b)
    ensures b != "" ==> (Ended(a + b) <==> Ended(b))
  {
    FoldAppend(Feed, START, a, b);
    var r, r' := Fold(Feed, START, a), Fold(Feed, START, b);
    if b == "" {
      assert a + b == a;
    } else {
      ReadBehind(r.mode, r.done, b, |b|);
      Associative(r.done + Flush(r.mode), r'.done, Flush(r'.mode));
    }
  }

  // ---------------------------------------------------------------- single tokens

  /** Text without quotes and colons: words and punctuation. */
  predicate Quiet(s: string) {
    forall i :: 0 <= i < |s| ==> s[i] != '"' && s[i] != '\'' && s[i] != ':'
  }

  function AddPunct(ts: seq<Token>, c: char): seq<Token> { ts + Punct(c) }

  /** The punctuation of a text without quotes. */
  function Puncts(s: string): seq<Token> { Fold(AddPunct, [], s) }

  lemma {:induction false} QuietFirst(s: string, n: nat)
    requires Quiet(s) && n <= |s|
    ensures FoldFirst(Feed, START, s, n) == Reader(Plain, FoldFirst(AddPunct, [], s, n))
  {
    if n > 0 {
      QuietFirst(s, n - 1);
    }
  }

  lemma QuietReads(s: string)
    requires Quiet(s)
    ensures Ended(s) && Tokens(s) == Puncts(s)
  {
    QuietFirst(s, |s|);
  }

  lemma {:induction false} NoPuncts(s: string, n: nat)
    requires n <= |s| && forall i :: 0 <= i < n ==> Punct(s[i]) == []
    ensures FoldFirst(AddPunct, [], s, n) == []
  {
    if n > 0 {
      NoPuncts(s, n - 1);
    }
  }

  lemma {:induction false} AddPuncts(ts: seq<Token>, s: string, n: nat)
    requires n <= |s|
    ensures FoldFirst(AddPunct, ts, s, n) == ts + FoldFirst(AddPunct, [], s, n)
  {
    if n > 0 {
      AddPuncts(ts, s, n - 1);
      Associative(ts, FoldFirst(AddPunct, [], s, n - 1), Punct(s[n - 1]));
    }
  }

  lemma PunctsAppend(a: string, b: string)
    ensures Puncts(a + b) == Puncts(a) + Puncts(b)
  {
    FoldAppend(AddPunct, [], a, b);
    AddPuncts(Puncts(a), b, |b|);
  }

  lemma HeadOpens(head: string)
    requires head != "" && head[|head| - 1] == '('
    requires forall i :: 0 <= i < |head| - 1 ==> Punct(head[i]) == []
    ensures Puncts(head) == [Open]
  {
    NoPuncts(head, |head| - 1);
    assert FoldFirst(AddPunct, [], head, |head|) == AddPunct([], '(');
  }

  lemma CloseIsPunct(s: string)
    requires s == ")"
    ensures Puncts(s) == [Close]
  {
    FoldOne(AddPunct, [], s);
  }

  lemma DotIsWords(s: string)
    requires s == "."
    ensures Printable(Words(s)) && Puncts(s) == []
  {
    NoPuncts(s, |s|);
  }

  function Doubled(s: string): string {
    if s == "" then ""
    else Doubled(s[..|s| - 1]) + if s[|s| - 1] == '"' then "\"\"" else [s[|s| - 1]]
  }

  /** KeywordHelper::WriteQuoted with a double quote: quotes around, quotes inside doubled. */
  function WriteQuoted(s: string): string {
    "\"" + Doubled(s) + "\""
  }

  /** Inside a quoted token, having read `acc` of it and nothing else. */
  function Inside(k: Kind, acc: string): Reader { Reader(Quoted(k, acc), []) }

  lemma {:induction false} DoubledReads(s: string)
    ensures Fold(Feed, Inside(Name, ""), Doubled(s)) == Inside(Name, s)
  {
    if s != "" {
      var init, c := s[..|s| - 1], s[|s| - 1];
      assert s == init + [c];
      DoubledReads(init);
      if c == '"' {
        FoldAppend(Feed, Inside(Name, ""), Doubled(init), "\"\"");
        FoldAppend(Feed, Inside(Name, init), "\"", "\"");
        FoldOne(Feed, Inside(Name, init), "\"");
        FoldOne(Feed, Reader(Closed(Name, init), []), "\"");
        assert "\"" + "\"" == "\"\"";
      } else {
        FoldAppend(Feed, Inside(Name, ""), Doubled(init), [c]);
        FoldOne(Feed, Inside(Name, init), [c]);
      }
    }
  }

  /** Any name, quoted, reads back as itself. */
  lemma QuotedReads(s: string)
    ensures Whole(WriteQuoted(s)) && Tokens(WriteQuoted(s)) == [Ident(s)]
  {
    DoubledReads(s);
    FoldOne(Feed, START, "\"");
    FoldAppend(Feed, START, "\"", Doubled(s));
    FoldAppend(Feed, START, "\"" + Doubled(s), "\"");
    FoldOne(Feed, Inside(Name, s), "\"");
  }

  lemma FeedInside(k: Kind, acc: string, c: char)
    requires c != Quote(k)
    ensures Feed(Inside(k, acc), c) == Inside(k, acc + [c])
  {
  }

  lemma TakeMore<T>(xs: seq<T>, n: nat)
    requires 0 < n <= |xs|
    ensures xs[..n] == xs[..n - 1] + [xs[n - 1]]
  {
  }

  lemma {:induction false} TextReads(s: string, n: nat)
    requires n <= |s| && forall i :: 0 <= i < |s| ==> s[i] != '\''
    ensures FoldFirst(Feed, Inside(Text, ""), s, n) == Inside(Text, s[..n])
  {
    if n > 0 {
      TextReads(s, n - 1);
      FeedInside(Text, s[..n - 1], s[n - 1]);
      TakeMore(s, n);
    }
  }

  lemma LiteralReads(s: string)
    requires '\'' !in s
    ensures Whole("'" + s + "'") && Tokens("'" + s + "'") == [Literal(s)]
  {
    TextReads(s, |s|);
    assert s[..|s|] == s;
    FoldOne(Feed, START, "'");
    FoldAppend(Feed, START, "'", s);
    FoldAppend(Feed, START, "'" + s, "'");
    FoldOne(Feed, Inside(Text, s), "'");
  }

  lemma {:induction false} DigitsRead(s: string, n: nat)
    requires n <= |s| && forall i :: 0 <= i < |s| ==> '0' <= s[i] <= '9'
    ensures FoldFirst(Feed, Reader(Number(0), []), s, n) == Reader(Number(Value(s[..n])), [])
  {
    if n > 0 {
      DigitsRead(s, n - 1);
      assert s[..n][..n - 1] == s[..n - 1];
    }
  }

  lemma PlaceholderReads(k: nat)
    ensures Whole(":" + Digits(k)) && Tokens(":" + Digits(k)) == [Placeholder(k)]
  {
    DigitsRead(Digits(k), |Digits(k)|);
    assert Digits(k)[..|Digits(k)|] == Digits(k);
    DigitsDenote(k);
    FoldOne(Feed, START, ":");
    FoldAppend(Feed, START, ":", Digits(k));
  }

  // ---------------------------------------------------------------- pieces

  /** Words and punctuation, or a name, a literal or a placeholder. */
  datatype Piece = Words(text: string) | Tok(token: Token)

  function Print(p: Piece): string {
    match p
    case Words(text) => text
    case Tok(Ident(name)) => WriteQuoted(name)
    case Tok(Literal(text)) => "'" + text + "'"
    case Tok(Placeholder(number)) => ":" + Digits(number)
    case Tok(Open) => "("
    case Tok(Close) => ")"
    case Tok(Comma) => ","
  }

  function TokenOf(p: Piece): seq<Token> {
    match p
    case Words(text) => Puncts(text)
    case Tok(t) => [t]
  }

  function AddPrint(s: string, p: Piece): string { s + Print(p) }

  function AddToken(ts: seq<Token>, p: Piece): seq<Token> { ts + TokenOf(p) }

  function PrintAll(ps: seq<Piece>): string { Fold(AddPrint, "", ps) }

  function TokensOf(ps: seq<Piece>): seq<Token> { Fold(AddToken, [], ps) }

  predicate Printable(p: Piece) {
    match p
    case Words(text) => text != "" && Neutral(text[0]) && Quiet(text)
    case Tok(t) => t.Ident? || t.Placeholder? || (t.Literal? && '\'' !in t.text)
  }

  /** Two names, literals or placeholders never touch. */
  predicate Spaced(ps: seq<Piece>) {
    && (forall i :: 0 <= i < |ps| ==> Printable(ps[i]))
    && (forall i :: 0 < i < |ps| && ps[i].Tok? ==> ps[i - 1].Words?)
  }

  lemma PieceReads(p: Piece)
    requires Printable(p)
    ensures Whole(Print(p)) && Tokens(Print(p)) == TokenOf(p)
    ensures p.Words? ==> Ended(Print(p)) && Print(p) != "" && Neutral(Print(p)[0])
  {
    match p
    case Words(text) => QuietReads(text);
    case Tok(Ident(name)) => QuotedReads(name);
    case Tok(Literal(text)) => LiteralReads(text);
    case Tok(Placeholder(number)) => PlaceholderReads(number);
  }

  /** Words without punctuation add no token. */
  lemma ThenWords(s: string, words: string)
    requires Whole(s) && Printable(Words(words)) && Puncts(words) == []
    ensures Ended(s + words) && Tokens(s + words) == Tokens(s)
  {
    QuietReads(words);
    Join(s, words);
  }

  lemma ThenName(s: string, name: string)
    requires Ended(s)
    ensures Whole(s + WriteQuoted(name)) && Tokens(s + WriteQuoted(name)) == Tokens(s) + [Ident(name)]
  {
    QuotedReads(name);
    Join(s, WriteQuoted(name));
  }

  /** What the text printed so far is read as. */
  predicate ReadsAs(s: string, ts: seq<Token>, ended: bool) {
    Whole(s) && Tokens(s) == ts && (ended ==> Ended(s))
  }

  lemma ReadsOn(s: string, ts: seq<Token>, ended: bool, p: Piece)
    requires ReadsAs(s, ts, ended) && Printable(p) && (p.Tok? ==> ended)
    ensures ReadsAs(AddPrint(s, p), AddToken(ts, p), p.Words?)
  {
    PieceReads(p);
    Join(s, Print(p));
  }

  /** ... after the first `n` pieces. */
  predicate PrintedSoFar(ps: seq<Piece>, n: nat)
    requires n <= |ps|
  {
    ReadsAs(FoldFirst(AddPrint, "", ps, n), FoldFirst(AddToken, [], ps, n), n == 0 || ps[n - 1].Words?)
  }

  lemma PrintedNone(ps: seq<Piece>)
    ensures PrintedSoFar(ps, 0)
  {
  }

  lemma PrintedMore(ps: seq<Piece>, n: nat)
    requires 0 < n <= |ps| && PrintedSoFar(ps, n - 1)
    requires Printable(ps[n - 1]) && (ps[n - 1].Tok? ==> n == 1 || ps[n - 2].Words?)
    ensures PrintedSoFar(ps, n)
  {
    var s, ts := FoldFirst(AddPrint, "", ps, n - 1), FoldFirst(AddToken, [], ps, n - 1);
    ReadsOn(s, ts, n == 1 || ps[n - 2].Words?, ps[n - 1]);
    assert FoldFirst(AddPrint, "", ps, n) == AddPrint(s, ps[n - 1]);
    assert FoldFirst(AddToken, [], ps, n) == AddToken(ts, ps[n - 1]);
  }

  predicate SpacedFirst(ps: seq<Piece>, n: nat)
    requires n <= |ps|
  {
    n == 0 || (SpacedFirst(ps, n - 1) && Printable(ps[n - 1]) && (ps[n - 1].Tok? ==> n == 1 || ps[n - 2].Words?))
  }

  lemma {:induction false} SpacedSoFar(ps: seq<Piece>, n: nat)
    requires Spaced(ps) && n <= |ps|
    ensures SpacedFirst(ps, n)
  {
    if n > 0 {
      SpacedSoFar(ps, n - 1);
    }
  }

  lemma {:induction false} PrintedFirst(ps: seq<Piece>, n: nat)
    requires n <= |ps| && SpacedFirst(ps, n)
    ensures PrintedSoFar(ps, n)
  {
    if n == 0 {
      PrintedNone(ps);
    } else {
      PrintedFirst(ps, n - 1);
      PrintedMore(ps, n);
    }
  }

  /** The tokens of what is printed are the tokens that were printed. */
  lemma PrintedReads(ps: seq<Piece>)
    requires Spaced(ps)
    ensures Whole(PrintAll(ps)) && Tokens(PrintAll(ps)) == TokensOf(ps)
  {
    SpacedSoFar(ps, |ps|);
    PrintedFirst(ps, |ps|);
  }

  lemma {:induction false} PrintFrom(s: string, ps: seq<Piece>, n: nat)
    requires n <= |ps|
    ensures FoldFirst(AddPrint, s, ps, n) == s + FoldFirst(AddPrint, "", ps, n)
  {
    if n > 0 {
      PrintFrom(s, ps, n - 1);
      Associative(s, FoldFirst(AddPrint, "", ps, n - 1), Print(ps[n - 1]));
    }
  }

  lemma PrintAppend(a: seq<Piece>, b: seq<Piece>)
    ensures PrintAll(a + b) == PrintAll(a) + PrintAll(b)
  {
    FoldAppend(AddPrint, "", a, b);
    PrintFrom(PrintAll(a), b, |b|);
  }

  lemma PrintOne(ps: seq<Piece>)
    requires |ps| == 1
    ensures PrintAll(ps) == Print(ps[0])
  {
    FoldOne(AddPrint, "", ps);
  }

  lemma PrintLast(a: seq<Piece>, p: Piece)
    ensures PrintAll(a + [p]) == PrintAll(a) + Print(p)
  {
    PrintAppend(a, [p]);
    PrintOne([p]);
  }

  lemma ThreePrints(a: Piece, b: Piece, c: Piece)
    ensures PrintAll([a, b, c]) == Print(a) + Print(b) + Print(c)
  {
    PrintOne([a]);
    PrintLast([a], b);
    PrintLast([a, b], c);
    assert [a] + [b] == [a, b] && [a, b] + [c] == [a, b, c];
  }

  lemma {:induction false} TokensFrom(ts: seq<Token>, ps: seq<Piece>, n: nat)
    requires n <= |ps|
    ensures FoldFirst(AddToken, ts, ps, n) == ts + FoldFirst(AddToken, [], ps, n)
  {
    if n > 0 {
      TokensFrom(ts, ps, n - 1);
      Associative(ts, FoldFirst(AddToken, [], ps, n - 1), TokenOf(ps[n - 1]));
    }
  }

  lemma TokensAppend(a: seq<Piece>, b: seq<Piece>)
    ensures TokensOf(a + b) == TokensOf(a) + TokensOf(b)
  {
    FoldAppend(AddToken, [], a, b);
    TokensFrom(TokensOf(a), b, |b|);
  }

  lemma TokensOne(ps: seq<Piece>)
    requires |ps| == 1
    ensures TokensOf(ps) == TokenOf(ps[0])
  {
    FoldOne(AddToken, [], ps);
  }

  lemma TokensLast(a: seq<Piece>, p: Piece)
    ensures TokensOf(a + [p]) == TokensOf(a) + TokenOf(p)
  {
    TokensAppend(a, [p]);
    TokensOne([p]);
  }

  lemma ThreeTokens(a: Piece, b: Piece, c: Piece)
    ensures TokensOf([a, b, c]) == TokenOf(a) + TokenOf(b) + TokenOf(c)
  {
    TokensOne([a]);
    TokensLast([a], b);
    TokensLast([a, b], c);
    assert [a] + [b] == [a, b] && [a, b] + [c] == [a, b, c];
  }

  lemma FourTokens(a: Piece, b: Piece, c: Piece, d: Piece)
    ensures TokensOf([a, b, c, d]) == TokenOf(a) + TokenOf(b) + TokenOf(c) + TokenOf(d)
  {
    ThreeTokens(a, b, c);
    TokensLast([a, b, c], d);
    assert [a, b, c] + [d] == [a, b, c, d];
  }

  function Idents(names: seq<string>): (ts: seq<Token>)
    ensures |ts| == |names| && forall i :: 0 <= i < |names| ==> ts[i] == Ident(names[i])
  {
    seq(|names|, i requires 0 <= i < |names| => Ident(names[i]))
  }

  // ---------------------------------------------------------------- lists

  function Nesting(t: Token): int {
    match t
    case Open => 1
    case Close => -1
    case _ => 0
  }

  function Deepen(depth: int, t: Token): int { depth + Nesting(t) }

  /** How deep in parentheses the reader is after `n` tokens. */
  function Depth(ts: seq<Token>, n: nat): int
    requires n <= |ts|
  {
    FoldFirst(Deepen, 0, ts, n)
  }

  /** A list being read: an item ends at a comma that is in no parentheses of its own. */
  datatype Progress = Progress(depth: int, items: seq<seq<Token>>, item: seq<Token>)

  const NO_ITEM := Progress(0, [], [])

  function Cut(p: Progress, t: Token): Progress {
    if t == Comma && p.depth == 0 then Progress(0, p.items + [p.item], [])
    else Progress(p.depth + Nesting(t), p.items, p.item + [t])
  }

  /** The items of a list. */
  function Items(ts: seq<Token>): seq<seq<Token>> {
    if ts == [] then []
    else
      var p := Fold(Cut, NO_ITEM, ts);
      p.items + [p.item]
  }

  /** A statement being read: its tokens outside parentheses, its lists in parentheses, and what of
      a list has been read. */
  datatype Outline = Outline(depth: int, outside: seq<Token>, lists: seq<seq<Token>>, current: seq<Token>)

  const BLANK := Outline(0, [], [], [])

  function Sketch(o: Outline, t: Token): Outline {
    if t == Open && o.depth == 0 then Outline(1, o.outside, o.lists, [])
    else if t == Close && o.depth == 1 then Outline(0, o.outside, o.lists + [o.current], [])
    else if o.depth == 0 then Outline(Nesting(t), o.outside + [t], o.lists, o.current)
    else Outline(o.depth + Nesting(t), o.outside, o.lists, o.current + [t])
  }

  function OutlineOf(ts: seq<Token>): Outline { Fold(Sketch, BLANK, ts) }

  /** The first `n` tokens close no parentheses but their own, and have no comma outside them. */
  predicate Nested(ts: seq<Token>, n: nat)
    requires n <= |ts|
  {
    n == 0 || (Nested(ts, n - 1) && Depth(ts, n) >= 0 && (ts[n - 1] == Comma ==> Depth(ts, n - 1) > 0))
  }

  /** One item of a list: it also closes all the parentheses it opens. */
  predicate OneItem(ts: seq<Token>) {
    ts != [] && Depth(ts, |ts|) == 0 && Nested(ts, |ts|)
  }

  lemma Grow<T>(before: seq<T>, xs: seq<T>, n: nat)
    requires n < |xs|
    ensures before + xs[..n + 1] == before + xs[..n] + [xs[n]]
  {
    assert xs[..n + 1] == xs[..n] + [xs[n]];
  }

  lemma OneTokenItem(ts: seq<Token>)
    requires |ts| == 1 && Nesting(ts[0]) == 0 && ts[0] != Comma
    ensures OneItem(ts)
  {
    assert Depth(ts, 0) == 0 && Depth(ts, 1) == 0;
    assert Nested(ts, 0) && Nested(ts, 1);
  }

  lemma {:induction false} CutItem(p: Progress, item: seq<Token>, n: nat)
    requires p.depth == 0 && n <= |item| && Nested(item, n)
    ensures FoldFirst(Cut, p, item, n) == Progress(Depth(item, n), p.items, p.item + item[..n])
  {
    if n > 0 {
      CutItem(p, item, n - 1);
      Grow(p.item, item, n - 1);
    } else {
      assert p.item + item[..0] == p.item;
    }
  }

  predicate AllItems(parts: seq<seq<Token>>, n: nat)
    requires n <= |parts|
  {
    n == 0 || (AllItems(parts, n - 1) && OneItem(parts[n - 1]))
  }

  lemma {:induction false} EachIsItem(parts: seq<seq<Token>>, n: nat)
    requires n <= |parts| && forall i :: 0 <= i < |parts| ==> OneItem(parts[i])
    ensures AllItems(parts, n)
  {
    if n > 0 {
      EachIsItem(parts, n - 1);
    }
  }

  /** The first `n` parts, with commas between them. */
  function Listed(parts: seq<seq<Token>>, n: nat): seq<Token>
    requires n <= |parts|
  {
    if n == 0 then [] else Listed(parts, n - 1) + (if n > 1 then [Comma] else []) + parts[n - 1]
  }

  lemma CutPart(p: Progress, part: seq<Token>)
    requires p.depth == 0 && p.item == [] && OneItem(part)
    ensures Fold(Cut, p, part) == Progress(0, p.items, part)
  {
    CutItem(p, part, |part|);
    assert [] + part[..|part|] == part;
  }

  lemma CutComma(p: Progress)
    requires p.depth == 0
    ensures Fold(Cut, p, [Comma]) == Progress(0, p.items + [p.item], [])
  {
    FoldOne(Cut, p, [Comma]);
  }

  lemma {:induction false} CutListed(parts: seq<seq<Token>>, n: nat)
    requires n <= |parts| && AllItems(parts, n)
    ensures Fold(Cut, NO_ITEM, Listed(parts, n)) == if n == 0 then NO_ITEM else Progress(0, parts[..n - 1], parts[n - 1])
    ensures n > 0 ==> Listed(parts, n) != []
  {
    if n > 0 {
      var before, part := Listed(parts, n - 1), parts[n - 1];
      CutListed(parts, n - 1);
      if n > 1 {
        FoldAppend(Cut, NO_ITEM, before, [Comma]);
        CutComma(Fold(Cut, NO_ITEM, before));
        assert parts[..n - 1] == parts[..n - 2] + [parts[n - 2]];
        before := before + [Comma];
      } else {
        assert before + [] == before;
      }
      FoldAppend(Cut, NO_ITEM, before, part);
      CutPart(Fold(Cut, NO_ITEM, before), part);
    }
  }

  /** The items of a list are the parts it was put together from. */
  lemma ListedItems(parts: seq<seq<Token>>)
    requires AllItems(parts, |parts|)
    ensures Items(Listed(parts, |parts|)) == parts
  {
    CutListed(parts, |parts|);
    if parts != [] {
      LastBehind(parts);
    }
  }

  lemma LastBehind<T>(xs: seq<T>)
    requires xs != []
    ensures xs[..|xs| - 1] + [xs[|xs| - 1]] == xs
  {
  }

  lemma SketchInside(o: Outline, t: Token)
    requires o.depth >= 1 && o.depth + Nesting(t) >= 1
    ensures Sketch(o, t) == Outline(o.depth + Nesting(t), o.outside, o.lists, o.current + [t])
  {
  }

  /** An item inside parentheses is part of their list. */
  lemma {:induction false} SketchItem(o: Outline, item: seq<Token>, n: nat)
    requires o.depth == 1 && n <= |item| && Nested(item, n)
    ensures FoldFirst(Sketch, o, item, n) == o.(depth := 1 + Depth(item, n), current := o.current + item[..n])
  {
    if n > 0 {
      SketchItem(o, item, n - 1);
      SketchInside(o.(depth := 1 + Depth(item, n - 1), current := o.current + item[..n - 1]), item[n - 1]);
      Grow(o.current, item, n - 1);
    } else {
      assert o.current + item[..0] == o.current;
    }
  }

  lemma SketchPart(o: Outline, part: seq<Token>)
    requires o.depth == 1 && OneItem(part)
    ensures Fold(Sketch, o, part) == o.(current := o.current + part)
  {
    SketchItem(o, part, |part|);
    assert part[..|part|] == part;
  }

  lemma {:induction false} SketchListed(o: Outline, parts: seq<seq<Token>>, n: nat)
    requires o.depth == 1 && n <= |parts| && AllItems(parts, n)
    ensures Fold(Sketch, o, Listed(parts, n)) == o.(current := o.current + Listed(parts, n))
  {
    if n == 0 {
      assert o.current + [] == o.current;
    } else {
      var before, comma, part := Listed(parts, n - 1), if n > 1 then [Comma] else [], parts[n - 1];
      SketchListed(o, parts, n - 1);
      var o' := o.(current := o.current + before);
      FoldAppend(Sketch, o, before, comma);
      if n > 1 {
        FoldOne(Sketch, o', [Comma]);
      } else {
        assert o'.current + [] == o'.current;
      }
      Associative(o.current, before, comma);
      FoldAppend(Sketch, o, before + comma, part);
      SketchPart(o.(current := o.current + (before + comma)), part);
      Associative(o.current, before + comma, part);
    }
  }

  /** A parenthesised list. */
  function InParens(list: seq<Token>): seq<Token> { [Open] + list + [Close] }

  /** A list in parentheses is read as one list. */
  lemma SketchList(o: Outline, parts: seq<seq<Token>>)
    requires o.depth == 0 && AllItems(parts, |parts|)
    ensures Fold(Sketch, o, InParens(Listed(parts, |parts|)))
            == Outline(0, o.outside, o.lists + [Listed(parts, |parts|)], [])
  {
    var list := Listed(parts, |parts|);
    var inside := Outline(1, o.outside, o.lists, []);
    FoldThree(Sketch, o, [Open], list, [Close]);
    FoldOne(Sketch, o, [Open]);
    SketchListed(inside, parts, |parts|);
    assert [] + list == list;
    FoldOne(Sketch, inside.(current := list), [Close]);
  }

  lemma SketchThree(a: seq<Token>, b: seq<Token>, c: seq<Token>, o: Outline, o': Outline, o'': Outline)
    requires OutlineOf(a) == o && Fold(Sketch, o, b) == o' && Fold(Sketch, o', c) == o''
    ensures OutlineOf(a + b + c) == o''
  {
    FoldThree(Sketch, BLANK, a, b, c);
  }

  /** Two lists in parentheses behind some tokens are read as two lists. */
  lemma SketchTwoLists(ts: seq<Token>, o: Outline, first: seq<seq<Token>>, second: seq<seq<Token>>)
    requires OutlineOf(ts) == o && o.depth == 0 && AllItems(first, |first|) && AllItems(second, |second|)
    ensures OutlineOf(ts + InParens(Listed(first, |first|)) + InParens(Listed(second, |second|)))
            == Outline(0, o.outside, o.lists + [Listed(first, |first|)] + [Listed(second, |second|)], [])
  {
    var o' := Outline(0, o.outside, o.lists + [Listed(first, |first|)], []);
    var o'' := Outline(0, o.outside, o'.lists + [Listed(second, |second|)], []);
    SketchList(o, first);
    SketchList(o', second);
    SketchThree(ts, InParens(Listed(first, |first|)), InParens(Listed(second, |second|)), o, o', o'');
  }

  // ---------------------------------------------------------------- lists of pieces

  function CommaPieces(i: nat): seq<Piece> {
    if i > 0 then [Words(", ")] else []
  }

  /** The first `n` items of a list, with commas between them. */
  function ListPieces(items: seq<seq<Piece>>, n: nat): seq<Piece>
    requires n <= |items|
  {
    if n == 0 then [] else ListPieces(items, n - 1) + CommaPieces(n - 1) + items[n - 1]
  }

  function AfterComma(sql: string, i: nat): string {
    if i > 0 then sql + ", " else sql
  }

  lemma ItemPrints(head: seq<Piece>, items: seq<seq<Piece>>, i: nat)
    requires i < |items|
    ensures PrintAll(head + ListPieces(items, i + 1)) == AfterComma(PrintAll(head + ListPieces(items, i)), i) + PrintAll(items[i])
  {
    var before := head + ListPieces(items, i);
    assert head + ListPieces(items, i + 1) == (before + CommaPieces(i)) + items[i];
    PrintAppend(before + CommaPieces(i), items[i]);
    if i > 0 {
      PrintLast(before, Words(", "));
    } else {
      assert before + CommaPieces(i) == before;
    }
  }

  lemma CommaIsPunct()
    ensures Puncts(", ") == [Comma] && Printable(Words(", "))
  {
    var s := ", ";
    assert FoldFirst(AddPunct, [], s, 0) == [] && FoldFirst(AddPunct, [], s, 1) == [Comma];
  }

  /** The tokens of a printed list are those of its items, with commas between them. */
  lemma {:induction false} ListTokens(items: seq<seq<Piece>>, parts: seq<seq<Token>>, n: nat)
    requires n <= |items| == |parts| && forall i :: 0 <= i < |items| ==> TokensOf(items[i]) == parts[i]
    ensures TokensOf(ListPieces(items, n)) == Listed(parts, n)
  {
    if n > 0 {
      var done := ListPieces(items, n - 1);
      ListTokens(items, parts, n - 1);
      TokensAppend(done + CommaPieces(n - 1), items[n - 1]);
      if n > 1 {
        CommaIsPunct();
        TokensLast(done, Words(", "));
      } else {
        assert done + CommaPieces(0) == done;
      }
    }
  }

  predicate Fit(a: seq<Piece>, b: seq<Piece>) {
    a == [] || b == [] || a[|a| - 1].Words? || b[0].Words?
  }

  lemma SpacedBoth(a: seq<Piece>, b: seq<Piece>)
    requires Spaced(a) && Spaced(b) && Fit(a, b)
    ensures Spaced(a + b)
  {
  }

  lemma {:induction false} SpacedList(items: seq<seq<Piece>>, n: nat)
    requires n <= |items| && forall i :: 0 <= i < |items| ==> Spaced(items[i])
    ensures Spaced(ListPieces(items, n)) && (n == 0 ==> ListPieces(items, n) == [])
  {
    if n > 0 {
      SpacedList(items, n - 1);
      CommaIsPunct();
      var done := ListPieces(items, n - 1);
      SpacedBoth(done, CommaPieces(n - 1));
      SpacedBoth(done + CommaPieces(n - 1), items[n - 1]);
    }
  }
}
