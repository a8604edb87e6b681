/** The string operations the parsers and printers share: split, join, trim and decimal numerals. */
module Text {
  /** A Go string is a string of bytes. Where that matters, its characters are below 256. */
  type Byte = c: char | c as int < 256 witness 'A'

  // ---------------------------------------------------------------------------------------------
  // Split and join

  /** `strings.Split(s, sep)` for a one-character separator: always at least one part. */
  function Split(s: string, sep: char): (parts: seq<string>)
    ensures |parts| >= 1
  {
    if s == "" then [""]
    else
      var rest := Split(s[1..], sep);
      if s[0] == sep then [""] + rest else [[s[0]] + rest[0]] + rest[1..]
  }

  /** `strings.Join(parts, sep)`. */
  function Join(parts: seq<string>, sep: char): string {
    if parts == [] then ""
    else if |parts| == 1 then parts[0]
    else parts[0] + [sep] + Join(parts[1..], sep)
  }

  /** A part without separators, followed by a separator, is split off whole. */
  lemma {:induction false} SplitPrefix(part: string, rest: string, sep: char)
    requires sep !in part
    ensures Split(part + [sep] + rest, sep) == [part] + Split(rest, sep)
  {
    if part == "" {
      assert part + [sep] + rest == [sep] + rest;
    } else {
      assert (part + [sep] + rest)[1..] == part[1..] + [sep] + rest;
      SplitPrefix(part[1..], rest, sep);
      assert [part[0]] + part[1..] == part;
    }
  }

  lemma {:induction false} SplitWhole(part: string, sep: char)
    requires sep !in part
    ensures Split(part, sep) == [part]
  {
    if part != "" {
      SplitWhole(part[1..], sep);
      assert [part[0]] + part[1..] == part;
    }
  }

  /** Splitting undoes joining for every non-empty list of parts without separators. */
  lemma {:induction false} SplitUndoesJoin(parts: seq<string>, sep: char)
    requires parts != [] && forall p :: p in parts ==> sep !in p
    ensures Split(Join(parts, sep), sep) == parts
  {
    if |parts| == 1 {
      SplitWhole(parts[0], sep);
    } else {
      SplitUndoesJoin(parts[1..], sep);
      SplitPrefix(parts[0], Join(parts[1..], sep), sep);
    }
  }

  /** `strings.SplitN(s, sep, 2)`, with None when the separator is absent. */
  function Cut(s: string, sep: char): (r: Cutting)
    ensures r.Whole? <==> sep !in s
    ensures r.Pieces? ==> s == r.before + [sep] + r.after && sep !in r.before
  {
    if s == "" then Whole
    else if s[0] == sep then Pieces("", s[1..])
    else
      match Cut(s[1..], sep)
      case Whole => Whole
      case Pieces(before, after) => Pieces([s[0]] + before, after)
  }

  datatype Cutting = Whole | Pieces(before: string, after: string)

  lemma {:induction false} CutAt(before: string, after: string, sep: char)
    requires sep !in before
    ensures Cut(before + [sep] + after, sep) == Pieces(before, after)
  {
    if before == "" {
      assert before + [sep] + after == [sep] + after;
    } else {
      assert (before + [sep] + after)[1..] == before[1..] + [sep] + after;
      CutAt(before[1..], after, sep);
      assert [before[0]] + before[1..] == before;
    }
  }

  // ---------------------------------------------------------------------------------------------
  // Trim

  /** The ASCII white space of `strings.TrimSpace`. */
  predicate IsSpace(c: char) {
    c == ' ' || c == '\t' || c == '\n' || c == '\r' || c == 11 as char || c == 12 as char
  }

  function TrimLeft(s: string): string {
    if s != "" && IsSpace(s[0]) then TrimLeft(s[1..]) else s
  }

  function TrimRight(s: string): string {
    if s != "" && IsSpace(s[|s| - 1]) then TrimRight(s[..|s| - 1]) else s
  }

  function Trim(s: string): string {
    TrimRight(TrimLeft(s))
  }

  lemma {:induction false} TrimKeepsCharacters(s: string)
    ensures forall c :: c in TrimLeft(s) ==> c in s
    ensures forall c :: c in TrimRight(s) ==> c in s
  {
    if s != "" {
      TrimKeepsCharacters(s[1..]);
      TrimKeepsCharacters(s[..|s| - 1]);
    }
  }

  function TrimBytes(s: seq<Byte>): (r: seq<Byte>)
    ensures r == Trim(s)
  {
    TrimKeepsCharacters(s);
    TrimKeepsCharacters(TrimLeft(s));
    assert forall i :: 0 <= i < |Trim(s)| ==> Trim(s)[i] in s;
    Trim(s)
  }

  /** Nothing to trim at either end. */
  predicate Tight(s: string) {
    s == "" || (!IsSpace(s[0]) && !IsSpace(s[|s| - 1]))
  }

  lemma {:induction false} TrimRightKeepsHead(s: string)
    requires s == "" || !IsSpace(s[0])
    ensures Tight(TrimRight(s))
  {
    if s != "" && IsSpace(s[|s| - 1]) {
      TrimRightKeepsHead(s[..|s| - 1]);
    }
  }

  lemma {:induction false} TrimLeftStops(s: string)
    ensures TrimLeft(s) == "" || !IsSpace(TrimLeft(s)[0])
  {
    if s != "" && IsSpace(s[0]) { TrimLeftStops(s[1..]); }
  }

  lemma TightIsTrimmed(s: string)
    requires Tight(s)
    ensures Trim(s) == s
  {}

  lemma TrimIsTight(s: string)
    ensures Tight(Trim(s)) && Trim(Trim(s)) == Trim(s)
  {
    TrimLeftStops(s);
    TrimRightKeepsHead(TrimLeft(s));
  }

  // ---------------------------------------------------------------------------------------------
  // Decimal numerals

  predicate IsDigit(c: char) { '0' <= c <= '9' }

  predicate AllDigits(s: string) {
    forall i :: 0 <= i < |s| ==> IsDigit(s[i])
  }

  function DigitsValue(s: string): nat
    requires AllDigits(s)
  {
    if s == "" then 0 else 10 * DigitsValue(s[..|s| - 1]) + (s[|s| - 1] as int - '0' as int)
  }

  /** `%d` of a natural number. */
  function Decimal(n: nat): (s: string)
    ensures s != "" && AllDigits(s)
  {
    var last := ['0' + (n % 10) as char];
    if n < 10 then last else Decimal(n / 10) + last
  }

  lemma {:induction false} DigitsOfDecimal(n: nat)
    ensures DigitsValue(Decimal(n)) == n
  {
    if n < 10 {
      assert Decimal(n)[..0] == "";
    } else {
      DigitsOfDecimal(n / 10);
      assert Decimal(n)[..|Decimal(n)| - 1] == Decimal(n / 10);
    }
  }

  // ---------------------------------------------------------------------------------------------
  // Lexical order

  predicate LexAtMost(a: string, b: string) {
    a == "" || (b != "" && (a[0] < b[0] || (a[0] == b[0] && LexAtMost(a[1..], b[1..]))))
  }

  lemma {:induction false} LexAtMostIsTotalOrder(a: string, b: string, c: string)
    ensures LexAtMost(a, b) || LexAtMost(b, a)
    ensures LexAtMost(a, b) && LexAtMost(b, a) ==> a == b
    ensures LexAtMost(a, b) && LexAtMost(b, c) ==> LexAtMost(a, c)
  {
    if a != "" && b != "" {
      LexAtMostIsTotalOrder(a[1..], b[1..], if c == "" then "" else c[1..]);
      assert a == [a[0]] + a[1..] && b == [b[0]] + b[1..];
    }
  }

  /** The order of a dictionary: a prefix comes first, and otherwise the first difference decides. */
  lemma {:induction false} LexAtMostIsLexical(prefix: string, a: string, b: string)
    ensures LexAtMost(prefix, prefix + a)
    ensures a != "" && b != "" && a[0] != b[0] ==> (LexAtMost(prefix + a, prefix + b) <==> a[0] < b[0])
  {
    if prefix == "" {
      assert prefix + a == a && prefix + b == b;
    } else {
      assert (prefix + a)[1..] == prefix[1..] + a && (prefix + b)[1..] == prefix[1..] + b;
      LexAtMostIsLexical(prefix[1..], a, b);
    }
  }

  ghost predicate IsLeast(k: string, keys: set<string>) {
    k in keys && forall k' :: k' in keys ==> LexAtMost(k, k')
  }

  lemma {:induction false} LeastExists(keys: set<string>)
    requires keys != {}
    ensures exists k :: IsLeast(k, keys)
    ensures forall k, k' :: IsLeast(k, keys) && IsLeast(k', keys) ==> k == k'
  {
    forall k, k' | IsLeast(k, keys) && IsLeast(k', keys) ensures k == k' {
      LexAtMostIsTotalOrder(k, k', k);
    }
    var x :| x in keys;
    LexAtMostIsTotalOrder(x, x, x);
    if keys - {x} == {} {
      assert keys == {x};
      assert IsLeast(x, keys);
    } else {
      LeastExists(keys - {x});
      var m :| IsLeast(m, keys - {x});
      LexAtMostIsTotalOrder(m, x, m);
      if LexAtMost(m, x) {
        assert IsLeast(m, keys);
      } else {
        forall k | k in keys ensures LexAtMost(x, k) { LexAtMostIsTotalOrder(x, m, k); }
        assert IsLeast(x, keys);
      }
    }
  }

  /** The keys in lexical order, each once. */
  ghost function SortedKeys(keys: set<string>): (r: seq<string>)
    ensures forall k :: k in r <==> k in keys
    decreases |keys|
  {
    if keys == {} then []
    else
      LeastExists(keys);
      var k :| IsLeast(k, keys);
      [k] + SortedKeys(keys - {k})
  }

  lemma SortedKeysFirst(keys: set<string>, k: string)
    requires IsLeast(k, keys)
    ensures SortedKeys(keys) == [k] + SortedKeys(keys - {k})
  {
    LeastExists(keys);
  }

  lemma {:induction false} SortedKeysDistinct(keys: set<string>)
    ensures forall i, j :: 0 <= i < j < |SortedKeys(keys)| ==> SortedKeys(keys)[i] != SortedKeys(keys)[j]
    decreases |keys|
  {
    if keys != {} {
      LeastExists(keys);
      var k :| IsLeast(k, keys);
      var rest := SortedKeys(keys - {k});
      SortedKeysFirst(keys, k);
      SortedKeysDistinct(keys - {k});
      forall i | 0 <= i < |rest| ensures rest[i] != k {
        assert rest[i] in rest;
      }
    }
  }

  /** The list order is the lexical order. */
  lemma {:induction false} SortedKeysAscend(keys: set<string>)
    ensures forall i, j :: 0 <= i < j < |SortedKeys(keys)| ==> LexAtMost(SortedKeys(keys)[i], SortedKeys(keys)[j])
    decreases |keys|
  {
    if keys != {} {
      LeastExists(keys);
      var k :| IsLeast(k, keys);
      var rest := SortedKeys(keys - {k});
      SortedKeysFirst(keys, k);
      SortedKeysAscend(keys - {k});
      forall i | 0 <= i < |rest| ensures LexAtMost(k, rest[i]) {
        assert rest[i] in rest;
      }
    }
  }
}
