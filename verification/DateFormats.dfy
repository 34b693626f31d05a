/** The date formats of the INSERT statement (src/storage/oracle_write.cpp:258-261), the text DuckDB
    prints dates and timestamps as, which is what gets bound (424-438), and how Oracle reads such a
    text by such a format.  A timestamp is read back exactly by the format for TIMESTAMP columns; by
    the one for DATE columns it is refused if and only if it has a fraction of a second. */
module DateFormats {
  import opened Wrappers
  import opened Sequences
  import opened Text
  import opened ConnectionString
  import opened InsertText

  /** Days are those of some month; which of them have 31 is for the calendar to know. */
  datatype Moment = Moment(year: nat, month: nat, day: nat, hour: nat, minute: nat, second: nat, nanos: nat)

  predicate IsDate(m: Moment) {
    1 <= m.year <= 9999 && 1 <= m.month <= 12 && 1 <= m.day <= 31
  }

  predicate IsMoment(m: Moment) {
    IsDate(m) && m.hour < 24 && m.minute < 60 && m.second < 60 && m.nanos < 1_000_000_000
  }

  function Midnight(m: Moment): Moment { m.(hour := 0, minute := 0, second := 0, nanos := 0) }

  // ---------------------------------------------------------------- numerals

  /** `n` with `w` zeros behind it. */
  function Scaled(n: nat, w: nat): nat { if w == 0 then n else 10 * Scaled(n, w - 1) }

  function PowerOfTen(w: nat): nat { Scaled(1, w) }

  /** The last `w` decimal digits of `n`. */
  function Padded(n: nat, w: nat): (s: string)
    ensures |s| == w && AllDigits(s)
  {
    if w == 0 then "" else Padded(n / 10, w - 1) + [(n % 10) as char + '0']
  }

  lemma {:induction false} PaddedDenotes(n: nat, w: nat)
    requires n < PowerOfTen(w)
    ensures Value(Padded(n, w)) == n
  {
    if w > 0 {
      var s := Padded(n, w);
      PaddedDenotes(n / 10, w - 1);
      assert s[..w - 1] == Padded(n / 10, w - 1);
    }
  }

  function Zeros(w: nat): (s: string)
    ensures |s| == w && AllDigits(s)
  {
    if w == 0 then "" else Zeros(w - 1) + "0"
  }

  lemma ValueSnoc(s: string, c: char)
    requires AllDigits(s) && '0' <= c <= '9'
    ensures AllDigits(s + [c]) && Value(s + [c]) == 10 * Value(s) + (c - '0') as nat
  {
    assert (s + [c])[..|s|] == s;
  }

  lemma DigitsJoin(a: string, b: string)
    requires AllDigits(a) && AllDigits(b)
    ensures AllDigits(a + b)
  {
  }

  lemma ZeroMore(s: string, w: nat)
    requires w > 0
    ensures s + Zeros(w) == s + Zeros(w - 1) + ['0']
  {
    Associative(s, Zeros(w - 1), "0");
  }

  lemma {:induction false} ZerosBehind(s: string, w: nat)
    requires AllDigits(s) && AllDigits(s + Zeros(w))
    ensures Value(s + Zeros(w)) == Scaled(Value(s), w)
  {
    if w == 0 {
      Neutral(s);
    } else {
      var init := s + Zeros(w - 1);
      DigitsJoin(s, Zeros(w - 1));
      ZerosBehind(s, w - 1);
      ZeroMore(s, w);
      ValueSnoc(init, '0');
    }
  }

  lemma {:induction false} ScaledTwice(n: nat, v: nat, w: nat)
    ensures Scaled(n, v + w) == Scaled(Scaled(n, v), w)
  {
    if w > 0 {
      ScaledTwice(n, v, w - 1);
    }
  }

  function TrimZeros(s: string): (t: string)
    ensures |t| <= |s| && (AllDigits(s) ==> AllDigits(t))
  {
    if s != "" && s[|s| - 1] == '0' then TrimZeros(s[..|s| - 1]) else s
  }

  lemma {:induction false} TrimmedZeros(s: string)
    ensures s == TrimZeros(s) + Zeros(|s| - |TrimZeros(s)|)
  {
    if s != "" && s[|s| - 1] == '0' {
      var init := s[..|s| - 1];
      TrimmedZeros(init);
      Associative(TrimZeros(s), Zeros(|init| - |TrimZeros(s)|), "0");
      assert s == init + "0";
    } else {
      Neutral(s);
    }
  }

  // ---------------------------------------------------------------- what DuckDB prints

  function Three(a: string, mark: char, b: string, c: string): string { a + [mark] + b + [mark] + c }

  function ShowDate(m: Moment): string {
    Three(Padded(m.year, 4), '-', Padded(m.month, 2), Padded(m.day, 2))
  }

  function ShowTime(m: Moment): string {
    Three(Padded(m.hour, 2), ':', Padded(m.minute, 2), Padded(m.second, 2)) + ShowFraction(m)
  }

  /** Microseconds, if there are any, without the zeros at the end. */
  function ShowFraction(m: Moment): string {
    if m.nanos == 0 then "" else "." + TrimZeros(Padded(m.nanos / 1000, 6))
  }

  function ShowTimestamp(m: Moment): string { ShowDate(m) + (" " + ShowTime(m)) }

  // ---------------------------------------------------------------- how Oracle reads it

  datatype Element = YYYY | MM | DD | HH24 | MI | SS | FF | Mark(c: char)

  function Spelling(e: Element): (s: string)
    ensures s != ""
  {
    match e
    case YYYY => "YYYY"
    case MM => "MM"
    case DD => "DD"
    case HH24 => "HH24"
    case MI => "MI"
    case SS => "SS"
    case FF => "FF"
    case Mark(c) => [c]
  }

  predicate IsMark(c: char) { c == '-' || c == ':' || c == '.' || c == ' ' }

  function First(format: string): (e: Option<Element>)
    requires format != ""
    ensures e.Some? ==> Spelling(e.value) <= format
  {
    if "YYYY" <= format then Some(YYYY)
    else if "MM" <= format then Some(MM)
    else if "DD" <= format then Some(DD)
    else if "HH24" <= format then Some(HH24)
    else if "MI" <= format then Some(MI)
    else if "SS" <= format then Some(SS)
    else if "FF" <= format then Some(FF)
    else if IsMark(format[0]) then Some(Mark(format[0]))
    else None
  }

  /** The elements of a format, or none when something in it is no element. */
  function Elements(format: string): Option<seq<Element>> {
    if format == "" then Some([])
    else
      match First(format)
      case None => None
      case Some(e) =>
        var es := Elements(format[|Spelling(e)|..]);
        if es.Some? then Some([e] + es.value) else None
  }

  function Width(e: Element): nat {
    match e
    case YYYY => 4
    case FF => 9
    case Mark(_) => 1
    case _ => 2
  }

  predicate Allowed(e: Element, n: nat) {
    match e
    case YYYY => 1 <= n
    case MM => 1 <= n <= 12
    case DD => 1 <= n <= 31
    case HH24 => n < 24
    case MI => n < 60
    case SS => n < 60
    case _ => true
  }

  function Set(m: Moment, e: Element, n: nat): Moment {
    match e
    case YYYY => m.(year := n)
    case MM => m.(month := n)
    case DD => m.(day := n)
    case HH24 => m.(hour := n)
    case MI => m.(minute := n)
    case SS => m.(second := n)
    case FF => m.(nanos := n)
    case Mark(_) => m
  }

  /** How many digits there are at the start of `s`, at most `most`. */
  function Run(s: string, most: nat): (n: nat)
    ensures n <= |s| && n <= most && AllDigits(s[..n])
  {
    if s == "" || most == 0 || !('0' <= s[0] <= '9') then 0
    else
      var n := Run(s[1..], most - 1);
      assert s[..n + 1] == [s[0]] + s[1..][..n];
      n + 1
  }

  /** A fraction of a second, in nanoseconds. */
  function Nanos(d: string): nat
    requires |d| <= 9 && AllDigits(d)
  {
    DigitsJoin(d, Zeros(9 - |d|));
    Value(d + Zeros(9 - |d|))
  }

  /** Reading `text` by the elements of a format: a text that ends early leaves the rest of `m` as it
      is, and one that goes on behind the last element is refused. */
  function Read(es: seq<Element>, text: string, m: Moment): Option<Moment> {
    if text == "" then Some(m)
    else if es == [] then None
    else
      match es[0]
      case Mark(c) => if text[0] == c then Read(es[1..], text[1..], m) else None
      case FF =>
        var n := Run(text, 9);
        if n == 0 then None
        else
          Read(es[1..], text[n..], Set(m, FF, Nanos(text[..n])))
      case e =>
        var w := Width(e);
        if |text| < w || !AllDigits(text[..w]) || !Allowed(e, Value(text[..w])) then None
        else Read(es[1..], text[w..], Set(m, e, Value(text[..w])))
  }

  /** TO_DATE and TO_TIMESTAMP. */
  function ReadBy(format: string, text: string, m: Moment): Option<Moment> {
    var es := Elements(format);
    if es.None? then None else Read(es.value, text, m)
  }

  // ---------------------------------------------------------------- the formats

  const DATE_ELEMENTS: seq<Element> := [YYYY, Mark('-'), MM, Mark('-'), DD]
  const TIME_ELEMENTS: seq<Element> := [HH24, Mark(':'), MI, Mark(':'), SS]

  /** No element is spelled like the beginning of another. */
  lemma FirstIs(e: Element, rest: string)
    requires e.Mark? ==> IsMark(e.c)
    ensures First(Spelling(e) + rest) == Some(e)
  {
    var f := Spelling(e) + rest;
    assert f[0] == Spelling(e)[0];
    if !e.Mark? {
      assert f[1] == Spelling(e)[1];
      assert Spelling(e) <= f;
    }
  }

  function Spell(es: seq<Element>): string {
    if es == [] then "" else Spelling(es[0]) + Spell(es[1..])
  }

  predicate Proper(es: seq<Element>) {
    forall i :: 0 <= i < |es| && es[i].Mark? ==> IsMark(es[i].c)
  }

  lemma ElementsStep(format: string, e: Element, rest: string, es: seq<Element>)
    requires format == Spelling(e) + rest && Elements(rest) == Some(es) && (e.Mark? ==> IsMark(e.c))
    ensures Elements(format) == Some([e] + es)
  {
    FirstIs(e, rest);
    assert format[|Spelling(e)|..] == rest;
  }

  /** A format that is spelled from elements consists of them. */
  lemma {:induction false} SpelledElements(es: seq<Element>)
    requires Proper(es)
    ensures Elements(Spell(es)) == Some(es)
  {
    if es != [] {
      SpelledElements(es[1..]);
      ElementsStep(Spell(es), es[0], Spell(es[1..]), es[1..]);
      assert [es[0]] + es[1..] == es;
    }
  }

  lemma {:induction false} SpellAppend(a: seq<Element>, b: seq<Element>)
    ensures Spell(a + b) == Spell(a) + Spell(b)
  {
    if a == [] {
      Neutral(b);
      Neutral(Spell(b));
    } else {
      SpellAppend(a[1..], b);
      assert (a + b)[1..] == a[1..] + b;
      Associative(Spelling(a[0]), Spell(a[1..]), Spell(b));
    }
  }

  lemma SpellOne(es: seq<Element>)
    requires |es| == 1
    ensures Spell(es) == Spelling(es[0])
  {
    assert Spell(es[1..]) == "";
    Neutral(Spelling(es[0]));
  }

  lemma SpellFive(a: Element, b: Element, c: Element, d: Element, e: Element)
    ensures Spell([a, b, c, d, e]) == Spelling(a) + Spelling(b) + Spelling(c) + Spelling(d) + Spelling(e)
  {
    SpellOne([a]);
    SpellOne([b]);
    SpellOne([c]);
    SpellOne([d]);
    SpellOne([e]);
    SpellAppend([a], [b]);
    SpellAppend([a] + [b], [c]);
    SpellAppend([a] + [b] + [c], [d]);
    SpellAppend([a] + [b] + [c] + [d], [e]);
    assert [a, b, c, d, e] == [a] + [b] + [c] + [d] + [e];
  }

  lemma PartsSpelled()
    ensures Spell(DATE_ELEMENTS) == "YYYY-MM-DD" && Spell(TIME_ELEMENTS) == "HH24:MI:SS"
  {
    SpellFive(YYYY, Mark('-'), MM, Mark('-'), DD);
    SpellFive(HH24, Mark(':'), MI, Mark(':'), SS);
  }

  lemma FormatSpelled(date: seq<Element>, time: seq<Element>, fraction: seq<Element>, format: string)
    requires format == Spell(date) + (" " + (Spell(time) + Spell(fraction)))
    requires Proper(date) && Proper(time) && Proper(fraction)
    ensures Elements(format) == Some(date + ([Mark(' ')] + (time + fraction)))
  {
    SpellAppend(date, [Mark(' ')] + (time + fraction));
    SpellAppend([Mark(' ')], time + fraction);
    SpellOne([Mark(' ')]);
    SpellAppend(time, fraction);
    SpelledElements(date + ([Mark(' ')] + (time + fraction)));
  }

  lemma FractionSpelled(es: seq<Element>)
    requires es == [Mark('.')] + [FF]
    ensures Spell(es) == ".FF"
  {
    SpellAppend([Mark('.')], [FF]);
    SpellOne([Mark('.')]);
    SpellOne([FF]);
  }

  lemma DateFormatElements(format: string)
    requires format == DATE_FORMAT
    ensures Elements(format) == Some(DATE_ELEMENTS + ([Mark(' ')] + (TIME_ELEMENTS + [])))
  {
    PartsSpelled();
    DateFormatParts(format, "YYYY-MM-DD", "HH24:MI:SS");
    FormatSpelled(DATE_ELEMENTS, TIME_ELEMENTS, [], format);
  }

  lemma DateFormatParts(format: string, date: string, time: string)
    requires format == DATE_FORMAT && date == "YYYY-MM-DD" && time == "HH24:MI:SS"
    ensures format == date + (" " + (time + ""))
  {
  }

  lemma TimestampFormatElements(format: string, fraction: seq<Element>)
    requires format == TIMESTAMP_FORMAT && fraction == [Mark('.')] + [FF]
    ensures Elements(format) == Some(DATE_ELEMENTS + ([Mark(' ')] + (TIME_ELEMENTS + fraction)))
  {
    PartsSpelled();
    FractionSpelled(fraction);
    TimestampFormatParts(format, "YYYY-MM-DD", "HH24:MI:SS", ".FF");
    FormatSpelled(DATE_ELEMENTS, TIME_ELEMENTS, fraction, format);
  }

  lemma TimestampFormatParts(format: string, date: string, time: string, fraction: string)
    requires format == TIMESTAMP_FORMAT && date == "YYYY-MM-DD" && time == "HH24:MI:SS" && fraction == ".FF"
    ensures format == date + (" " + (time + fraction))
  {
  }

  // ---------------------------------------------------------------- reading what was printed

  lemma ReadNumber(e: Element, es: seq<Element>, n: nat, more: string, m: Moment)
    requires !e.Mark? && !e.FF? && Allowed(e, n) && n < PowerOfTen(Width(e))
    ensures Read([e] + es, Padded(n, Width(e)) + more, m) == Read(es, more, Set(m, e, n))
  {
    var w := Width(e);
    var text := Padded(n, w) + more;
    PaddedDenotes(n, w);
    assert text[..w] == Padded(n, w) && text[w..] == more && ([e] + es)[1..] == es;
  }

  lemma ReadMark(c: char, es: seq<Element>, more: string, m: Moment)
    ensures Read([Mark(c)] + es, [c] + more, m) == Read(es, more, m)
  {
    assert ([c] + more)[1..] == more && ([Mark(c)] + es)[1..] == es;
  }

  lemma Powers()
    ensures PowerOfTen(2) == 100 && PowerOfTen(3) == 1000 && PowerOfTen(4) == 10000 && PowerOfTen(6) == 1_000_000
  {
    assert PowerOfTen(1) == 10 && PowerOfTen(5) == 100_000;
  }

  function WithThree(m: Moment, a: Element, i: nat, b: Element, j: nat, c: Element, k: nat): Moment {
    Set(Set(Set(m, a, i), b, j), c, k)
  }

  predicate Fits(e: Element, n: nat) {
    !e.Mark? && !e.FF? && Allowed(e, n) && n < PowerOfTen(Width(e))
  }

  lemma ReadBoth(e: Element, mark: char, es: seq<Element>, n: nat, more: string, m: Moment)
    requires Fits(e, n)
    ensures Read([e] + ([Mark(mark)] + es), Padded(n, Width(e)) + ([mark] + more), m) == Read(es, more, Set(m, e, n))
  {
    ReadNumber(e, [Mark(mark)] + es, n, [mark] + more, m);
    ReadMark(mark, es, more, Set(m, e, n));
  }

  lemma Nest<T>(a: seq<T>, b: seq<T>, c: seq<T>, d: seq<T>, e: seq<T>, f: seq<T>)
    ensures a + b + c + d + e + f == a + (b + (c + (d + (e + f))))
  {
  }

  lemma ReadThree(a: Element, i: nat, b: Element, j: nat, c: Element, k: nat, mark: char, es: seq<Element>, more: string, m: Moment)
    requires Fits(a, i) && Fits(b, j) && Fits(c, k)
    ensures Read([a, Mark(mark), b, Mark(mark), c] + es,
                 Three(Padded(i, Width(a)), mark, Padded(j, Width(b)), Padded(k, Width(c))) + more, m)
            == Read(es, more, WithThree(m, a, i, b, j, c, k))
  {
    var last, shown := [c] + es, Padded(k, Width(c)) + more;
    ReadBoth(a, mark, [b] + ([Mark(mark)] + last), i, Padded(j, Width(b)) + ([mark] + shown), m);
    ReadBoth(b, mark, last, j, shown, Set(m, a, i));
    ReadNumber(c, es, k, more, Set(Set(m, a, i), b, j));
    Nest([a], [Mark(mark)], [b], [Mark(mark)], [c], es);
    Nest(Padded(i, Width(a)), [mark], Padded(j, Width(b)), [mark], Padded(k, Width(c)), more);
    assert [a, Mark(mark), b, Mark(mark), c] == [a] + [Mark(mark)] + [b] + [Mark(mark)] + [c];
  }

  function WithDate(blank: Moment, m: Moment): Moment { blank.(year := m.year, month := m.month, day := m.day) }

  lemma ReadDate(m: Moment, es: seq<Element>, more: string, blank: Moment)
    requires IsDate(m)
    ensures Read(DATE_ELEMENTS + es, ShowDate(m) + more, blank) == Read(es, more, WithDate(blank, m))
  {
    Powers();
    ReadThree(YYYY, m.year, MM, m.month, DD, m.day, '-', es, more, blank);
  }

  function WithTime(blank: Moment, m: Moment): Moment {
    blank.(hour := m.hour, minute := m.minute, second := m.second)
  }

  lemma ReadTime(m: Moment, es: seq<Element>, blank: Moment)
    requires IsMoment(m)
    ensures Read(TIME_ELEMENTS + es, ShowTime(m), blank) == Read(es, ShowFraction(m), WithTime(blank, m))
  {
    Powers();
    ReadThree(HH24, m.hour, MI, m.minute, SS, m.second, ':', es, ShowFraction(m), blank);
  }

  lemma {:induction false} RunOfDigits(s: string, most: nat)
    requires AllDigits(s) && |s| <= most
    ensures Run(s, most) == |s|
  {
    if s != "" {
      RunOfDigits(s[1..], most - 1);
    }
  }

  lemma {:induction false} ZerosAreNothing(w: nat)
    ensures Value(Zeros(w)) == 0
  {
    if w > 0 {
      ZerosAreNothing(w - 1);
      ValueSnoc(Zeros(w - 1), '0');
    }
  }

  lemma SomethingShown(full: string, shown: string)
    requires AllDigits(full) && shown == TrimZeros(full) && Value(full) > 0
    ensures shown != ""
  {
    TrimmedZeros(full);
    if shown == "" {
      Neutral(Zeros(|full|));
      ZerosAreNothing(|full|);
    }
  }

  /** Filling a numeral up with more zeros than were left out. */
  lemma FilledUp(full: string, shown: string, w: nat, more: nat)
    requires AllDigits(full) && shown == TrimZeros(full) && |full| == |shown| + w
    ensures AllDigits(shown + Zeros(w + more)) && Value(shown + Zeros(w + more)) == Scaled(Value(full), more)
  {
    TrimmedZeros(full);
    DigitsJoin(shown, Zeros(w + more));
    ZerosBehind(shown, w);
    ZerosBehind(shown, w + more);
    ScaledTwice(Value(shown), w, more);
  }

  /** Oracle fills a fraction up with the zeros DuckDB left out. */
  lemma FractionDenotes(micros: nat, shown: string)
    requires 0 < micros < 1_000_000 && shown == TrimZeros(Padded(micros, 6))
    ensures 0 < |shown| <= 9 && AllDigits(shown) && Nanos(shown) == 1000 * micros
  {
    Powers();
    PaddedDenotes(micros, 6);
    SomethingShown(Padded(micros, 6), shown);
    FilledUp(Padded(micros, 6), shown, 6 - |shown|, 3);
    Thousandfold(micros);
  }

  lemma Thousandfold(n: nat)
    ensures Scaled(n, 3) == 1000 * n
  {
    assert Scaled(n, 1) == 10 * n && Scaled(n, 2) == 100 * n;
  }

  lemma ReadFF(es: seq<Element>, d: string, m: Moment, n: nat)
    requires |es| == 1 && es[0] == FF && 0 < |d| <= 9 && AllDigits(d) && Nanos(d) == n
    ensures Read(es, d, m) == Some(m.(nanos := n))
  {
    RunOfDigits(d, 9);
    assert d[..|d|] == d && d[|d|..] == "";
    NothingLeft(es[1..], m.(nanos := n));
  }

  lemma NothingLeft(es: seq<Element>, m: Moment)
    ensures Read(es, "", m) == Some(m)
  {
  }

  lemma ReadFraction(m: Moment, blank: Moment)
    requires m.nanos < 1_000_000_000 && m.nanos % 1000 == 0 && blank.nanos == 0
    ensures Read([Mark('.')] + [FF], ShowFraction(m), blank) == Some(blank.(nanos := m.nanos))
  {
    if m.nanos == 0 {
      NothingLeft([Mark('.')] + [FF], blank);
    } else {
      Powers();
      var d := TrimZeros(Padded(m.nanos / 1000, 6));
      FractionDenotes(m.nanos / 1000, d);
      ReadMark('.', [FF], d, blank);
      ReadFF([FF], d, blank, m.nanos);
    }
  }

  lemma ReadMoment(m: Moment, es: seq<Element>, blank: Moment)
    requires IsMoment(m)
    ensures Read(DATE_ELEMENTS + ([Mark(' ')] + (TIME_ELEMENTS + es)), ShowTimestamp(m), blank)
            == Read(es, ShowFraction(m), WithTime(WithDate(blank, m), m))
  {
    ReadDate(m, [Mark(' ')] + (TIME_ELEMENTS + es), " " + ShowTime(m), blank);
    ReadMark(' ', TIME_ELEMENTS + es, ShowTime(m), WithDate(blank, m));
    ReadTime(m, es, WithDate(blank, m));
  }

  /** What DuckDB prints a timestamp as is read back by the format for TIMESTAMP columns, whatever
      Oracle would put in for what a text does not say. */
  lemma TimestampReadsBack(m: Moment, blank: Moment)
    requires IsMoment(m) && m.nanos % 1000 == 0 && blank == Midnight(blank)
    ensures ReadBy(TIMESTAMP_FORMAT, ShowTimestamp(m), blank) == Some(m)
  {
    var fraction := [Mark('.')] + [FF];
    TimestampFormatElements(TIMESTAMP_FORMAT, fraction);
    ReadMoment(m, fraction, blank);
    ReadFraction(m, WithTime(WithDate(blank, m), m));
  }

  /** By the format for DATE columns it is read back if and only if it has no fraction of a second,
      and refused otherwise. */
  lemma DateReadsBackIff(m: Moment, blank: Moment)
    requires IsMoment(m) && m.nanos % 1000 == 0 && blank == Midnight(blank)
    ensures ReadBy(DATE_FORMAT, ShowTimestamp(m), blank) == if m.nanos == 0 then Some(m) else None
  {
    DateFormatElements(DATE_FORMAT);
    ReadMoment(m, [], blank);
  }

  lemma ReadDateAlone(m: Moment, es: seq<Element>, blank: Moment)
    requires IsDate(m) && blank == Midnight(blank)
    ensures Read(DATE_ELEMENTS + es, ShowDate(m), blank) == Some(Midnight(m))
  {
    Neutral(ShowDate(m));
    ReadDate(m, es, "", blank);
  }

  /** A date without a time is read as its midnight by both formats. */
  lemma DatesReadBack(m: Moment, blank: Moment)
    requires IsDate(m) && blank == Midnight(blank)
    ensures ReadBy(DATE_FORMAT, ShowDate(m), blank) == Some(Midnight(m))
    ensures ReadBy(TIMESTAMP_FORMAT, ShowDate(m), blank) == Some(Midnight(m))
  {
    var fraction := [Mark('.')] + [FF];
    DateFormatElements(DATE_FORMAT);
    TimestampFormatElements(TIMESTAMP_FORMAT, fraction);
    ReadDateAlone(m, [Mark(' ')] + (TIME_ELEMENTS + []), blank);
    ReadDateAlone(m, [Mark(' ')] + (TIME_ELEMENTS + fraction), blank);
  }

  /** So a timestamp written to a column whose values go through a format arrives, except for one with
      a fraction of a second in a DATE column, which fails the statement. */
  lemma ArrivesIff(oracleType: string, m: Moment, blank: Moment)
    requires WrapperOf(oracleType).FormatCall? && IsMoment(m) && m.nanos % 1000 == 0 && blank == Midnight(blank)
    ensures ReadBy(WrapperOf(oracleType).format, ShowTimestamp(m), blank) == Some(m)
            <==> (SameUpToCase(oracleType, "DATE") ==> m.nanos == 0)
  {
    WrapperByName(oracleType);
    TimestampReadsBack(m, blank);
    DateReadsBackIff(m, blank);
  }
}
