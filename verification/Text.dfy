// Strings as the Go standard library treats them: splitting on a separator and
// trimming white space.

module Text {
  // strings.Split(s, string(c)): the pieces between the occurrences of c.
  function Split(s: string, c: char): (parts: seq<string>)
    ensures |parts| >= 1
    ensures forall i :: 0 <= i < |parts| ==> c !in parts[i]
  {
    if s == [] then [[]]
    else
      var rest := Split(s[1..], c);
      if s[0] == c then [[]] + rest else [[s[0]] + rest[0]] + rest[1..]
  }

  function Join(parts: seq<string>, c: char): string
  {
    if |parts| == 0 then []
    else if |parts| == 1 then parts[0]
    else parts[0] + [c] + Join(parts[1..], c)
  }

  // Splitting at the first piece that is free of the separator.
  lemma {:induction false} SplitPiece(a: string, rest: string, c: char)
    requires c !in a
    ensures Split(a + [c] + rest, c) == [a] + Split(rest, c)
  {
    if a == [] {
      assert (a + [c] + rest)[1..] == rest;
    } else {
      SplitPiece(a[1..], rest, c);
      assert (a + [c] + rest)[1..] == a[1..] + [c] + rest;
      assert [a[0]] + a[1..] == a;
    }
  }

  lemma {:induction false} SplitWhole(a: string, c: char)
    requires c !in a
    ensures Split(a, c) == [a]
  {
    if a != [] {
      SplitWhole(a[1..], c);
      assert [a[0]] + a[1..] == a;
    }
  }

  lemma {:induction false} SplitJoin(parts: seq<string>, c: char)
    requires |parts| >= 1
    requires forall i :: 0 <= i < |parts| ==> c !in parts[i]
    ensures Split(Join(parts, c), c) == parts
  {
    if |parts| == 1 {
      SplitWhole(parts[0], c);
    } else {
      SplitJoin(parts[1..], c);
      SplitPiece(parts[0], Join(parts[1..], c), c);
    }
  }

  lemma {:induction false} JoinSplit(s: string, c: char)
    ensures Join(Split(s, c), c) == s
  {
    if s != [] {
      JoinSplit(s[1..], c);
      var rest := Split(s[1..], c);
      if s[0] != c {
        assert ([[s[0]] + rest[0]] + rest[1..])[1..] == rest[1..];
      }
      assert [s[0]] + s[1..] == s;
    }
  }

  lemma {:induction false} JoinHasNo(parts: seq<string>, separator: char, c: char)
    requires c != separator && forall i :: 0 <= i < |parts| ==> c !in parts[i]
    ensures c !in Join(parts, separator)
  {
    if |parts| > 1 {
      JoinHasNo(parts[1..], separator, c);
    }
  }

  // unicode.IsSpace, the characters strings.TrimSpace removes at both ends.
  predicate IsSpace(c: char)
  {
    || '\t' <= c <= '\r' || c == ' '
    || c as int == 0x85 || c as int == 0xA0 || c as int == 0x1680
    || 0x2000 <= c as int <= 0x200A || c as int == 0x2028 || c as int == 0x2029
    || c as int == 0x202F || c as int == 0x205F || c as int == 0x3000
  }

  function TrimLeft(s: string): string
  {
    if s != [] && IsSpace(s[0]) then TrimLeft(s[1..]) else s
  }

  function TrimRight(s: string): string
  {
    if s != [] && IsSpace(s[|s| - 1]) then TrimRight(s[..|s| - 1]) else s
  }

  function TrimSpace(s: string): string
  {
    TrimRight(TrimLeft(s))
  }

  predicate Trimmed(s: string)
  {
    s == [] || (!IsSpace(s[0]) && !IsSpace(s[|s| - 1]))
  }

  lemma {:induction false} TrimRightKeepsHead(s: string)
    requires s == [] || !IsSpace(s[0])
    ensures Trimmed(TrimRight(s))
    decreases |s|
  {
    if s != [] && IsSpace(s[|s| - 1]) {
      TrimRightKeepsHead(s[..|s| - 1]);
    }
  }

  lemma {:induction false} TrimLeftStops(s: string)
    ensures TrimLeft(s) == [] || !IsSpace(TrimLeft(s)[0])
  {
    if s != [] && IsSpace(s[0]) {
      TrimLeftStops(s[1..]);
    }
  }

  predicate AllSpace(s: string)
  {
    forall i :: 0 <= i < |s| ==> IsSpace(s[i])
  }

  // Trimming takes off white space only, at both ends only.
  lemma {:induction false} TrimRightCuts(s: string) returns (end: string)
    ensures s == TrimRight(s) + end && AllSpace(end)
    decreases |s|
  {
    end := "";
    if s != [] && IsSpace(s[|s| - 1]) {
      end := TrimRightCuts(s[..|s| - 1]);
      end := end + [s[|s| - 1]];
    }
  }

  lemma {:induction false} TrimLeftCuts(s: string) returns (start: string)
    ensures s == start + TrimLeft(s) && AllSpace(start)
  {
    start := "";
    if s != [] && IsSpace(s[0]) {
      start := TrimLeftCuts(s[1..]);
      start := [s[0]] + start;
    }
  }

  lemma TrimSpaceCuts(s: string) returns (start: string, end: string)
    ensures s == start + TrimSpace(s) + end && AllSpace(start) && AllSpace(end)
  {
    start := TrimLeftCuts(s);
    end := TrimRightCuts(TrimLeft(s));
  }

  // Trimming yields a trimmed string, and a string is trimmed exactly when
  // trimming leaves it alone.
  lemma TrimSpaceFixes(s: string)
    ensures Trimmed(TrimSpace(s))
    ensures Trimmed(s) <==> TrimSpace(s) == s
  {
    TrimLeftStops(s);
    TrimRightKeepsHead(TrimLeft(s));
  }
}
