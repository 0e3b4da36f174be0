/**
 The transaction-search string: `type.key='value'` items joined by `;` or `,`, and the parser that takes them
 apart again with nothing but split, join and a trim of one quote at either end.

 The parser splits at semicolons if there are any, else at commas; it drops an element whose name does not have
 two parts.
 */
module SearchQuery {
  datatype Item = Item(kind: string, key: string, value: string)

  // ----- split and join -----

  function Split(s: string, c: char): (r: seq<string>)
    ensures r != []
  {
    if s == "" then [""]
    else
      var rest := Split(s[1..], c);
      if s[0] == c then [""] + rest else [[s[0]] + rest[0]] + rest[1..]
  }

  function Join(parts: seq<string>, c: char): string {
    if parts == [] then ""
    else if |parts| == 1 then parts[0]
    else parts[0] + [c] + Join(parts[1..], c)
  }

  lemma {:induction false} SplitWithout(s: string, c: char)
    requires c !in s
    ensures Split(s, c) == [s]
  {
    if s != "" {
      assert s == [s[0]] + s[1..];
      SplitWithout(s[1..], c);
    }
  }

  /** The part before the first separator is split off alone. */
  lemma {:induction false} SplitFirst(a: string, c: char, b: string)
    requires c !in a
    ensures Split(a + [c] + b, c) == [a] + Split(b, c)
  {
    if a == "" {
      assert (a + [c] + b)[1..] == b;
    } else {
      var t := a[1..] + [c] + b;
      assert a == [a[0]] + a[1..];
      assert (a + [c] + b)[1..] == t;
      SplitFirst(a[1..], c, b);
      assert ([a[1..]] + Split(b, c))[1..] == Split(b, c);
    }
  }

  lemma {:induction false} JoinSplit(s: string, c: char)
    ensures Join(Split(s, c), c) == s
  {
    if s != "" {
      var rest := Split(s[1..], c);
      JoinSplit(s[1..], c);
      if s[0] == c {
        assert ([""] + rest)[1..] == rest;
        assert "" + [c] + s[1..] == s;
      } else {
        assert ([[s[0]] + rest[0]] + rest[1..])[1..] == rest[1..];
        if |rest| > 1 {
          assert [s[0]] + rest[0] + [c] + Join(rest[1..], c) == [s[0]] + (rest[0] + [c] + Join(rest[1..], c));
        }
        assert [s[0]] + s[1..] == s;
      }
    }
  }

  /** The last part of a join is not interrupted by the separator; the first piece of any text has none. */
  lemma {:induction false} FirstPiece(s: string, c: char) returns (rest: string)
    ensures c !in Split(s, c)[0]
    ensures if c in s then s == Split(s, c)[0] + [c] + rest else s == Split(s, c)[0]
  {
    if s == "" {
      rest := "";
    } else if s[0] == c {
      rest := s[1..];
      assert s == "" + [c] + s[1..];
    } else {
      rest := FirstPiece(s[1..], c);
      assert s == [s[0]] + s[1..];
      if c in s[1..] {
        assert [s[0]] + (Split(s[1..], c)[0] + [c] + rest) == [s[0]] + Split(s[1..], c)[0] + [c] + rest;
      }
    }
  }

  // ----- the parser -----

  /** `replace(/(^'|'$)/g, '')`. */
  function Trim(v: string): string {
    var w := if v != "" && v[0] == '\'' then v[1..] else v;
    if w != "" && w[|w| - 1] == '\'' then w[..|w| - 1] else w
  }

  /** One element: split at `=`, the rest put together again; the name must have exactly two parts. */
  function ParseOne(element: string): seq<Item> {
    var parts := Split(element, '=');
    var value, typeKey := Join(parts[1..], '='), Split(parts[0], '.');
    if |typeKey| == 2 then [Item(typeKey[0], typeKey[1], Trim(value))] else []
  }

  function ParseAll(elements: seq<string>): seq<Item> {
    if elements == [] then [] else ParseAll(elements[..|elements| - 1]) + ParseOne(elements[|elements| - 1])
  }

  function Elements(query: string): seq<string> {
    if ';' in query then Split(query, ';') else if ',' in query then Split(query, ',') else [query]
  }

  method FormatSearchQueryInTxSearch(query: string) returns (queryObject: seq<Item>)
    ensures queryObject == ParseAll(Elements(query))
  {
    var queryArray: seq<string>;
    if ';' in query {
      queryArray := Split(query, ';');
    } else if ',' in query {
      queryArray := Split(query, ',');
    } else {
      queryArray := [query];
    }
    queryObject := FormatElements(queryArray);
  }

  method FormatElements(queryArray: seq<string>) returns (queryObject: seq<Item>)
    ensures queryObject == ParseAll(queryArray)
  {
    queryObject := [];
    for i := 0 to |queryArray|
      invariant queryObject == ParseAll(queryArray[..i])
    {
      assert queryArray[..i + 1][..i] == queryArray[..i];
      var item := FormatElement(queryArray[i]);
      queryObject := queryObject + item;
    }
    assert queryArray[..|queryArray|] == queryArray;
  }

  /** One element of the loop: an item, or nothing. */
  method FormatElement(element: string) returns (item: seq<Item>)
    ensures item == ParseOne(element)
  {
    item := [];
    var parts := Split(element, '=');
    var value := Join(parts[1..], '=');
    var typeKeyList := Split(parts[0], '.');
    if |typeKeyList| == 2 {
      item := [Item(typeKeyList[0], typeKeyList[1], Trim(value))];
    }
  }

  // ----- the printer -----

  function Print(x: Item): string {
    x.kind + ['.'] + x.key + ['='] + (['\''] + x.value + ['\''])
  }

  function Prints(xs: seq<Item>): seq<string> {
    if xs == [] then [] else [Print(xs[0])] + Prints(xs[1..])
  }

  function PrintAll(xs: seq<Item>, separator: char): string {
    Join(Prints(xs), separator)
  }

  predicate CleanName(s: string) {
    '.' !in s && '=' !in s && ',' !in s && ';' !in s
  }

  predicate CleanNames(xs: seq<Item>) {
    forall x :: x in xs ==> CleanName(x.kind) && CleanName(x.key)
  }

  /** No value holds a character the parser would split this text at. */
  predicate SafeValues(xs: seq<Item>, separator: char) {
    forall x :: x in xs ==> ';' !in x.value && (separator == ',' || |xs| == 1 ==> ',' !in x.value)
  }

  lemma ParseName(kind: string, key: string, value: string)
    requires CleanName(kind) && CleanName(key)
    ensures ParseOne(kind + ['.'] + key + ['='] + value) == [Item(kind, key, Trim(value))]
  {
    var name := kind + ['.'] + key;
    SplitFirst(name, '=', value);
    JoinSplit(value, '=');
    var parts := Split(name + ['='] + value, '=');
    assert parts[1..] == Split(value, '=');
    SplitFirst(kind, '.', key);
    SplitWithout(key, '.');
  }

  lemma ParsePrint(x: Item)
    requires CleanName(x.kind) && CleanName(x.key)
    ensures ParseOne(Print(x)) == [x]
  {
    var quoted := ['\''] + x.value + ['\''];
    ParseName(x.kind, x.key, quoted);
    assert quoted[1..] == x.value + ['\''];
    assert (x.value + ['\''])[..|x.value|] == x.value;
  }

  lemma {:induction false} ParseAllConcat(a: seq<string>, b: seq<string>)
    ensures ParseAll(a + b) == ParseAll(a) + ParseAll(b)
  {
    if b == [] {
      assert a + b == a;
    } else {
      assert (a + b)[..|a + b| - 1] == a + b[..|b| - 1];
      ParseAllConcat(a, b[..|b| - 1]);
    }
  }

  lemma ParseFirst(e: string, rest: seq<string>)
    ensures ParseAll([e] + rest) == ParseOne(e) + ParseAll(rest)
  {
    ParseAllConcat([e], rest);
    assert [e][..0] == [];
  }

  lemma PrintHas(x: Item, c: char)
    requires CleanName(x.kind) && CleanName(x.key) && (c == ';' || c == ',')
    ensures c in Print(x) <==> c in x.value
  {
  }

  /** Split at the joining character, with no value in the way: each item comes back. */
  lemma {:induction false} RoundTripAt(xs: seq<Item>, c: char)
    requires xs != [] && CleanNames(xs) && (c == ';' || c == ',')
    requires forall x :: x in xs ==> c !in x.value
    ensures ParseAll(Split(PrintAll(xs, c), c)) == xs
  {
    var x, rest := xs[0], xs[1..];
    PrintHas(x, c);
    ParsePrint(x);
    if rest == [] {
      assert Prints(xs) == [Print(x)] + [];
      SplitWithout(Print(x), c);
      ParseFirst(Print(x), []);
      assert [Print(x)] + [] == [Print(x)];
    } else {
      assert Prints(xs)[1..] == Prints(rest) && |Prints(rest)| > 0;
      SplitFirst(Print(x), c, PrintAll(rest, c));
      RoundTripAt(rest, c);
      ParseFirst(Print(x), Split(PrintAll(rest, c), c));
    }
  }

  predicate AnyValueHas(xs: seq<Item>, c: char) {
    exists x :: x in xs && c in x.value
  }

  lemma {:induction false} PrintAllHas(xs: seq<Item>, separator: char, c: char)
    requires xs != [] && CleanNames(xs) && (c == ';' || c == ',')
    ensures c in PrintAll(xs, separator) <==> AnyValueHas(xs, c) || (c == separator && |xs| > 1)
  {
    var x, rest := xs[0], xs[1..];
    assert xs == [x] + rest;
    PrintHas(x, c);
    if rest == [] {
      assert Prints(xs) == [Print(x)];
    } else {
      assert Prints(xs)[1..] == Prints(rest) && |Prints(rest)| > 0;
      PrintAllHas(rest, separator, c);
      assert PrintAll(xs, separator) == Print(x) + [separator] + PrintAll(rest, separator);
    }
  }

  lemma PrintAllUnfold(xs: seq<Item>, separator: char) returns (tail: string)
    requires xs != []
    ensures PrintAll(xs, separator) == Print(xs[0]) + tail
    ensures |xs| > 1 ==> tail == [separator] + PrintAll(xs[1..], separator)
  {
    if |xs| == 1 {
      assert Prints(xs) == [Print(xs[0])];
      tail := "";
      assert Print(xs[0]) + "" == Print(xs[0]);
    } else {
      assert Prints(xs)[1..] == Prints(xs[1..]);
      tail := [separator] + PrintAll(xs[1..], separator);
    }
  }

  /** The first piece decides the first item. */
  lemma FirstItem(x: Item, quoted: string, c: char, b: string)
    requires CleanName(x.kind) && CleanName(x.key) && (c == ';' || c == ',') && c !in quoted
    ensures var a := x.kind + ['.'] + x.key + ['='] + quoted;
            ParseAll(Split(a + [c] + b, c)) == [Item(x.kind, x.key, Trim(quoted))] + ParseAll(Split(b, c))
  {
    var a := x.kind + ['.'] + x.key + ['='] + quoted;
    assert c !in a;
    SplitFirst(a, c, b);
    ParseFirst(a, Split(b, c));
    ParseName(x.kind, x.key, quoted);
  }

  lemma CutText(name: string, v0: string, c: char, v1: string, tail: string)
    ensures name + (['\''] + (v0 + [c] + v1) + ['\'']) + tail == name + (['\''] + v0) + [c] + (v1 + ['\''] + tail)
  {
  }

  lemma TrimKeepsOut(v: string, c: char)
    requires c !in v
    ensures c !in Trim(v)
  {
  }

  /** A value cut at its own separator does not come back. */
  lemma CutValue(xs: seq<Item>, separator: char, c: char)
    requires xs != [] && CleanNames(xs) && (c == ';' || c == ',') && c in xs[0].value
    ensures ParseAll(Split(PrintAll(xs, separator), c)) != xs
  {
    var x := xs[0];
    var tail := PrintAllUnfold(xs, separator);
    var v1 := FirstPiece(x.value, c);
    var v0 := Split(x.value, c)[0];
    var name, quoted, b := x.kind + ['.'] + x.key + ['='], ['\''] + v0, v1 + ['\''] + tail;
    CutText(name, v0, c, v1, tail);
    assert PrintAll(xs, separator) == name + quoted + [c] + b;
    FirstItem(x, quoted, c, b);
    TrimKeepsOut(quoted, c);
  }

  lemma SwallowText(name: string, value: string, q: string, b: string)
    ensures name + value + ([','] + (q + [';'] + b)) == name + (value + [','] + q) + [';'] + b
  {
  }

  /** Where a first item runs on into the next ones, up to the first `;`. */
  lemma RunsOn(xs: seq<Item>) returns (more: string, b: string)
    requires |xs| > 1 && CleanNames(xs) && AnyValueHas(xs[1..], ';')
    ensures ';' !in more
    ensures var x := xs[0];
            PrintAll(xs, ',') ==
            (x.kind + ['.'] + x.key + ['=']) + (['\''] + x.value + ['\''] + [','] + more) + [';'] + b
  {
    var x, text := xs[0], PrintAll(xs[1..], ',');
    var tail := PrintAllUnfold(xs, ',');
    PrintAllHas(xs[1..], ',', ';');
    b := FirstPiece(text, ';');
    more := Split(text, ';')[0];
    SwallowText(x.kind + ['.'] + x.key + ['='], ['\''] + x.value + ['\''], more, b);
  }

  /** An item followed by more text before the first split character swallows that text. */
  lemma SwallowedText(xs: seq<Item>)
    requires |xs| > 1 && CleanNames(xs) && ';' !in xs[0].value && AnyValueHas(xs, ';')
    ensures ParseAll(Split(PrintAll(xs, ','), ';')) != xs
  {
    var x := xs[0];
    assert xs == [x] + xs[1..];
    var more, b := RunsOn(xs);
    var quoted := ['\''] + x.value + ['\''] + [','] + more;
    FirstItem(x, quoted, ';', b);
    assert |Trim(quoted)| > |x.value|;
  }

  lemma {:induction false} CutSomewhere(xs: seq<Item>, c: char)
    requires xs != [] && CleanNames(xs) && (c == ';' || c == ',') && AnyValueHas(xs, c)
    ensures ParseAll(Split(PrintAll(xs, c), c)) != xs
  {
    var x, rest := xs[0], xs[1..];
    assert xs == [x] + rest;
    if c in x.value {
      CutValue(xs, c, c);
    } else {
      var tail := PrintAllUnfold(xs, c);
      CutSomewhere(rest, c);
      PrintHas(x, c);
      SplitFirst(Print(x), c, PrintAll(rest, c));
      ParsePrint(x);
      ParseFirst(Print(x), Split(PrintAll(rest, c), c));
      assert Print(x) + tail == Print(x) + [c] + PrintAll(rest, c);
      assert ([x] + ParseAll(Split(PrintAll(rest, c), c)))[1..] == ParseAll(Split(PrintAll(rest, c), c));
    }
  }

  /** The parser undoes the printer exactly when no value holds a character the text is split at. */
  lemma RoundTrip(xs: seq<Item>, separator: char)
    requires xs != [] && CleanNames(xs) && (separator == ';' || separator == ',')
    ensures ParseAll(Elements(PrintAll(xs, separator))) == xs <==> SafeValues(xs, separator)
  {
    PrintAllHas(xs, separator, ';');
    PrintAllHas(xs, separator, ',');
    if |xs| == 1 {
      assert xs == [xs[0]];
      OneItem(xs[0], separator);
    } else if separator == ';' {
      if AnyValueHas(xs, ';') { CutSomewhere(xs, ';'); } else { RoundTripAt(xs, ';'); }
    } else if AnyValueHas(xs, ';') {
      if ';' in xs[0].value { CutValue(xs, ',', ';'); } else { SwallowedText(xs); }
    } else {
      if AnyValueHas(xs, ',') { CutSomewhere(xs, ','); } else { RoundTripAt(xs, ','); }
    }
  }

  lemma OneItem(x: Item, separator: char)
    requires CleanName(x.kind) && CleanName(x.key)
    ensures ParseAll(Elements(PrintAll([x], separator))) == [x] <==> ';' !in x.value && ',' !in x.value
  {
    assert Prints([x]) == [Print(x)];
    PrintHas(x, ';');
    PrintHas(x, ',');
    if ';' in x.value {
      CutValue([x], separator, ';');
    } else if ',' in x.value {
      CutValue([x], separator, ',');
    } else {
      ParsePrint(x);
      ParseFirst(Print(x), []);
      assert [Print(x)] + [] == [Print(x)];
    }
  }

  // ----- the text itself -----

  /** The pieces put together are the text, and none holds the character it was split at. */
  lemma {:induction false} SplitPieces(s: string, c: char)
    ensures forall i :: 0 <= i < |Split(s, c)| ==> c !in Split(s, c)[i]
    ensures |Split(s, c)| == 1 <==> c !in s
    ensures Join(Split(s, c), c) == s
  {
    JoinSplit(s, c);
    if s != "" { SplitPieces(s[1..], c); }
  }

  /** `kind.key='value'`, with or without the quotes, whatever else the value holds. */
  lemma ParseText(kind: string, key: string, value: string)
    requires CleanName(kind) && CleanName(key)
    ensures ParseOne(kind + "." + key + "='" + value + "'") == [Item(kind, key, value)]
    ensures value == "" || (value[0] != '\'' && value[|value| - 1] != '\'') ==>
              ParseOne(kind + "." + key + "=" + value) == [Item(kind, key, value)]
  {
    ParsePrint(Item(kind, key, value));
    assert Print(Item(kind, key, value)) == kind + "." + key + "='" + value + "'";
    ParseName(kind, key, value);
  }

  /** A name with one dot, at position `i`, gives an item, and any other name gives nothing. */
  lemma {:induction false} NameGives(name: string, value: string)
    requires '=' !in name
    ensures ParseOne(name + ['='] + value) != [] <==>
            exists i :: 0 <= i < |name| && name[i] == '.' && '.' !in name[..i] && '.' !in name[i + 1..]
  {
    SplitFirst(name, '=', value);
    var parts := Split(name, '.');
    SplitPieces(name, '.');
    if '.' in name {
      var b := FirstPiece(name, '.');
      var a := parts[0];
      SplitFirst(a, '.', b);
      SplitPieces(b, '.');
      assert name[..|a|] == a && name[|a| + 1..] == b;
      OnlyDot(name, a, b);
    }
  }

  lemma OnlyDot(name: string, a: string, b: string)
    requires name == a + ['.'] + b && '.' !in a
    ensures '.' !in b <==> exists i :: 0 <= i < |name| && name[i] == '.' && '.' !in name[..i] && '.' !in name[i + 1..]
  {
    var n := |a|;
    assert name[..n] == a && name[n + 1..] == b && name[n] == '.';
    forall i | 0 <= i < n
      ensures name[i] != '.'
    {
      assert name[i] == a[i] && a[i] in a;
    }
    forall i | n < i < |name|
      ensures '.' in name[..i]
    {
      assert name[..i][n] == '.';
    }
  }

  /** Commas separate only where there is no semicolon. */
  lemma {:induction false} TwoElements(a: string, b: string)
    requires ';' !in a && ';' !in b
    ensures ParseAll(Elements(a + [';'] + b)) == ParseOne(a) + ParseOne(b)
    ensures ',' !in a && ',' !in b ==> ParseAll(Elements(a + [','] + b)) == ParseOne(a) + ParseOne(b)
    ensures ',' !in a ==> ParseAll(Elements(a)) == ParseOne(a)
  {
    SplitFirst(a, ';', b);
    SplitWithout(b, ';');
    ParseTwo(a, b);
    if ',' !in a && ',' !in b {
      SplitFirst(a, ',', b);
      SplitWithout(b, ',');
    }
    ParseFirst(a, []);
    assert [a] + [] == [a] && ParseOne(a) + [] == ParseOne(a);
  }

  lemma {:induction false} ParseTwo(a: string, b: string)
    ensures ParseAll([a] + [b]) == ParseOne(a) + ParseOne(b)
  {
    ParseFirst(a, [b]);
    ParseFirst(b, []);
    assert [b] + [] == [b] && ParseOne(b) + [] == ParseOne(b);
  }
}
