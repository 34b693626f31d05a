/** Reading a serialized VECTOR, "[1.0, 2.0]", into a list (src/oracle_extension.cpp:674-709).
    Turning one numeral into a number is a parameter, which may refuse. */
module VectorText {
  import opened Wrappers
  import opened Sequences

  predicate Blank(c: char) {
    c == ' ' || '\t' <= c <= '\r'   // isspace: tab, line feed, vertical tab, form feed, return
  }

  predicate AllBlank(s: string) {
    forall i :: 0 <= i < |s| ==> Blank(s[i])
  }

  function TrimLeft(s: string): string {
    if s != "" && Blank(s[0]) then TrimLeft(s[1..]) else s
  }

  function TrimRight(s: string): string {
    if s != "" && Blank(s[|s| - 1]) then TrimRight(s[..|s| - 1]) else s
  }

  function Trim(s: string): string {
    TrimRight(TrimLeft(s))
  }

  /** The parts between separators; always at least one. */
  function Split(s: string, c: char): (parts: seq<string>)
    ensures parts != []
  {
    if s == "" then [""]
    else
      var rest := Split(s[1..], c);
      if s[0] == c then [""] + rest else [[s[0]] + rest[0]] + rest[1..]
  }

  function Join(parts: seq<string>, c: char): string {
    if parts == [] then ""
    else if |parts| == 1 then parts[0]
    else parts[0] + [c] + Join(parts[1..], c)
  }

  /** The parts that are numerals, in order. */
  function Numbers<V>(parts: seq<string>, parse: string -> Option<V>): seq<V> {
    if parts == [] then []
    else
      var init := Numbers(parts[..|parts| - 1], parse);
      var t := Trim(parts[|parts| - 1]);
      if t != "" && parse(t).Some? then init + [parse(t).value] else init
  }

  /** A part that is no numeral has no bearing on the others. */
  lemma {:induction false} NumbersSplit<V>(first: seq<string>, second: seq<string>, parse: string -> Option<V>)
    ensures Numbers(first + second, parse) == Numbers(first, parse) + Numbers(second, parse)
  {
    if second == [] {
      Neutral(first);
      Neutral(Numbers(first, parse));
    } else {
      var last := |second| - 1;
      InitOfAppend(first, second);
      NumbersSplit(first, second[..last], parse);
      var t := Trim(second[last]);
      if t != "" && parse(t).Some? {
        Associative(Numbers(first, parse), Numbers(second[..last], parse), [parse(t).value]);
      }
    }
  }

  /** Whatever stands before and behind it, an unreadable part is skipped and nothing else is. */
  lemma UnreadableSkipped<V>(first: seq<string>, bad: string, second: seq<string>, parse: string -> Option<V>)
    requires Trim(bad) == "" || parse(Trim(bad)).None?
    ensures Numbers(first + [bad] + second, parse) == Numbers(first + second, parse)
  {
    NumbersSplit(first + [bad], second, parse);
    NumbersSplit(first, [bad], parse);
    NumbersSplit(first, second, parse);
    assert [bad][..0] == [] && Numbers([], parse) == [];
    assert Numbers([bad], parse) == [];
  }

  method ParseVectorJsonToList<V>(json: string, parse: string -> Option<V>) returns (elements: seq<V>)
    ensures elements == ListOf(json, parse)
  {
    elements := [];
    var s := Trim(json);
    if s == "" || s[0] != '[' {
      return;
    }
    if |s| >= 2 && s[0] == '[' && s[|s| - 1] == ']' {
      s := s[1..|s| - 1];
    }
    if s != "" {
      var parts := Split(s, ',');
      for i := 0 to |parts|
        invariant elements == Numbers(parts[..i], parse)
      {
        assert parts[..i + 1][..i] == parts[..i];
        var part := Trim(parts[i]);
        if part != "" {
          var v := parse(part);
          if v.Some? {
            elements := elements + [v.value];
          }
        }
      }
      assert parts[..|parts|] == parts;
    }
  }

  function ListOf<V>(json: string, parse: string -> Option<V>): seq<V> {
    var s := Trim(json);
    if s == "" || s[0] != '[' then []
    else
      var inner := if |s| >= 2 && s[|s| - 1] == ']' then s[1..|s| - 1] else s;
      if inner == "" then [] else Numbers(Split(inner, ','), parse)
  }

  // ---------------------------------------------------------------- splitting undoes joining

  lemma {:induction false} SplitNoSeparator(s: string, c: char)
    requires c !in s
    ensures Split(s, c) == [s]
  {
    if s != "" {
      SplitNoSeparator(s[1..], c);
      assert [s[0]] + s[1..] == s;
    }
  }

  lemma {:induction false} SplitAt(a: string, c: char, b: string)
    requires c !in a
    ensures Split(a + [c] + b, c) == [a] + Split(b, c)
  {
    if a == "" {
      assert (a + [c] + b)[1..] == b;
    } else {
      SplitAt(a[1..], c, b);
      assert (a + [c] + b)[1..] == a[1..] + [c] + b;
      assert [a[0]] + a[1..] == a;
      var rest := Split(a[1..] + [c] + b, c);
      assert rest[0] == a[1..] && rest[1..] == Split(b, c);
    }
  }

  ghost predicate SeparatorFree(parts: seq<string>, c: char) {
    forall i :: 0 <= i < |parts| ==> c !in parts[i]
  }

  lemma {:induction false} SplitJoin(parts: seq<string>, c: char)
    requires parts != [] && SeparatorFree(parts, c)
    ensures Split(Join(parts, c), c) == parts
  {
    if |parts| == 1 {
      SplitNoSeparator(parts[0], c);
    } else {
      assert SeparatorFree(parts[1..], c) by {
        assert forall i :: 0 <= i < |parts| - 1 ==> parts[1..][i] == parts[i + 1];
      }
      SplitJoin(parts[1..], c);
      SplitAt(parts[0], c, Join(parts[1..], c));
    }
  }

  lemma {:induction false} TrimLeftPad(pad: string, s: string)
    requires AllBlank(pad) && s != "" && !Blank(s[0])
    ensures TrimLeft(pad + s) == s
  {
    if pad == "" {
      assert pad + s == s;
    } else {
      assert (pad + s)[1..] == pad[1..] + s;
      TrimLeftPad(pad[1..], s);
    }
  }

  lemma {:induction false} TrimRightPad(s: string, pad: string)
    requires AllBlank(pad) && s != "" && !Blank(s[|s| - 1])
    ensures TrimRight(s + pad) == s
  {
    if pad == "" {
      assert s + pad == s;
    } else {
      assert (s + pad)[..|s + pad| - 1] == s + pad[..|pad| - 1];
      TrimRightPad(s, pad[..|pad| - 1]);
    }
  }

  lemma TrimPads(left: string, s: string, right: string)
    requires AllBlank(left) && AllBlank(right) && s != "" && !Blank(s[0]) && !Blank(s[|s| - 1])
    ensures Trim(left + s + right) == s
  {
    assert left + s + right == left + (s + right);
    TrimLeftPad(left, s + right);
    TrimRightPad(s, right);
  }

  // ---------------------------------------------------------------- main results

  /** Any bracketed, comma-separated text, with any blanks around the brackets: the list is the
      parts that are numerals, in order; the others are dropped. */
  lemma BracketedList<V>(left: string, parts: seq<string>, right: string, parse: string -> Option<V>)
    requires AllBlank(left) && AllBlank(right) && parts != [] && SeparatorFree(parts, ',')
    ensures ListOf(left + ("[" + Join(parts, ',') + "]") + right, parse) == Numbers(parts, parse)
  {
    var s := "[" + Join(parts, ',') + "]";
    TrimPads(left, s, right);
    assert s[1..|s| - 1] == Join(parts, ',');
    SplitJoin(parts, ',');
    if Join(parts, ',') == "" {
      assert |parts| == 1 && parts[..0] == [];
      assert Trim("") == "";
      assert Numbers(parts[..0], parse) == [];
    }
  }

  lemma TrimLeftPads(left: string, s: string)
    requires AllBlank(left) && s != "" && !Blank(s[0])
    ensures TrimLeft(left + s) == s
  {
    TrimLeftPad(left, s);
  }

  /** Text that does not begin with a bracket is no list, whatever it contains. */
  lemma NoBracketNoList<V>(left: string, s: string, parse: string -> Option<V>)
    requires AllBlank(left) && (s == "" || (s[0] != '[' && !Blank(s[0])))
    ensures ListOf(left + s, parse) == []
  {
    if s == "" {
      Neutral(left);
      BlankTrims(left);
    } else {
      TrimLeftPads(left, s);
      TrimRightKeeps(s);
    }
  }

  lemma {:induction false} BlankTrims(s: string)
    requires AllBlank(s)
    ensures TrimLeft(s) == "" && Trim(s) == ""
  {
    if s != "" {
      BlankTrims(s[1..]);
    }
  }

  lemma {:induction false} TrimRightKeeps(s: string)
    requires s != "" && !Blank(s[0])
    ensures TrimRight(s) != "" && TrimRight(s)[0] == s[0]
  {
    if Blank(s[|s| - 1]) {
      TrimRightKeeps(s[..|s| - 1]);
    }
  }

  /** A list that is not closed is read to its end, its first part with the bracket still before it. */
  lemma UnclosedList<V>(left: string, parts: seq<string>, parse: string -> Option<V>)
    requires AllBlank(left) && parts != [] && SeparatorFree(parts, ',')
    requires var s := Join(parts, ','); s != "" && !Blank(s[|s| - 1]) && s[|s| - 1] != ']'
    ensures ListOf(left + ("[" + Join(parts, ',')), parse) == Numbers(["[" + parts[0]] + parts[1..], parse)
  {
    var s := "[" + Join(parts, ',');
    TrimPads(left, s, "");
    Neutral(left + s);
    var bracketed := ["[" + parts[0]] + parts[1..];
    OpenedJoin(parts);
    SplitJoin(bracketed, ',');
  }

  lemma JoinPrefixed(first: string, rest: seq<string>, prefix: string, c: char)
    ensures Join([prefix + first] + rest, c) == prefix + Join([first] + rest, c)
  {
    assert ([prefix + first] + rest)[1..] == rest && ([first] + rest)[1..] == rest;
    if rest != [] {
      Associative(prefix, first, [c]);
      Associative(prefix, first + [c], Join(rest, c));
    }
  }

  lemma OpenedJoin(parts: seq<string>)
    requires parts != [] && SeparatorFree(parts, ',')
    ensures var bracketed := ["[" + parts[0]] + parts[1..];
            SeparatorFree(bracketed, ',') && Join(bracketed, ',') == "[" + Join(parts, ',')
  {
    JoinPrefixed(parts[0], parts[1..], "[", ',');
    assert [parts[0]] + parts[1..] == parts;
  }

  /** The text VECTOR_SERIALIZE produces: numerals separated by ", ". */
  function Print(numerals: seq<string>): string {
    "[" + Join(Padded(numerals), ',') + "]"
  }

  function Padded(numerals: seq<string>): (parts: seq<string>)
    ensures |parts| == |numerals|
    ensures forall i :: 0 <= i < |parts| ==> parts[i] == if i == 0 then numerals[0] else " " + numerals[i]
  {
    seq(|numerals|, i requires 0 <= i < |numerals| => if i == 0 then numerals[0] else " " + numerals[i])
  }

  ghost predicate IsNumeral(s: string) {
    s != "" && ',' !in s && forall i :: 0 <= i < |s| ==> !Blank(s[i])
  }

  function Values<V>(numerals: seq<string>, parse: string -> Option<V>): seq<V>
    requires forall i :: 0 <= i < |numerals| ==> parse(numerals[i]).Some?
  {
    seq(|numerals|, i requires 0 <= i < |numerals| => parse(numerals[i]).value)
  }

  lemma {:induction false} NumbersOfPadded<V>(numerals: seq<string>, parts: seq<string>, parse: string -> Option<V>)
    requires |parts| == |numerals|
    requires forall i :: 0 <= i < |numerals| ==> IsNumeral(numerals[i]) && parse(numerals[i]).Some?
    requires forall i :: 0 <= i < |numerals| ==> parts[i] == numerals[i] || parts[i] == " " + numerals[i]
    ensures Numbers(parts, parse) == Values(numerals, parse)
  {
    if numerals != [] {
      var n := |numerals| - 1;
      NumbersOfPadded(numerals[..n], parts[..n], parse);
      var x := numerals[n];
      if parts[n] == x {
        TrimPads("", x, "");
        assert "" + x + "" == x;
      } else {
        TrimPads(" ", x, "");
        assert " " + x + "" == " " + x;
      }
      assert Values(numerals, parse) == Values(numerals[..n], parse) + [parse(x).value];
    }
  }

  /** Round trip: printing a list of numerals and reading it back gives their values, in order. */
  lemma VectorRoundTrip<V>(numerals: seq<string>, parse: string -> Option<V>)
    requires forall i :: 0 <= i < |numerals| ==> IsNumeral(numerals[i]) && parse(numerals[i]).Some?
    ensures ListOf(Print(numerals), parse) == Values(numerals, parse)
  {
    var s := Print(numerals);
    assert "" + s + "" == s;
    if numerals == [] {
      assert s == "[]";
      TrimPads("", s, "");
      assert Trim(s) == "[]";
    } else {
      var parts := Padded(numerals);
      assert SeparatorFree(parts, ',');
      BracketedList("", parts, "", parse);
      NumbersOfPadded(numerals, parts, parse);
    }
  }
}
