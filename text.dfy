/**
 * Text helpers shared by the JavaScript encoder and the native decoder:
 * splitting on a separator, finding a character, ASCII case mapping and the
 * decimal text of integers.
 */
module Text {
  import opened Wrappers

  // ---------------------------------------------------------------------------
  // Searching and splitting
  // ---------------------------------------------------------------------------

  /** The position of the first `d` in `s`, if there is one. */
  function IndexOf(s: string, d: char): (r: Option<nat>)
    ensures r.Some? ==> r.value < |s| && s[r.value] == d && d !in s[..r.value]
    ensures r.None? ==> d !in s
  {
    if s == [] then None
    else if s[0] == d then Some(0)
    else
      match IndexOf(s[1..], d)
      case None => None
      case Some(i) =>
        assert s[..i + 1] == [s[0]] + s[1..][..i];
        Some(i + 1)
  }

  /**
   * The pieces of `s` between occurrences of `d`, as JavaScript's
   * `split` and Swift's `components(separatedBy:)` give them: there is
   * always at least one piece, and a separator at either end gives an empty
   * piece there.
   */
  function Split(s: string, d: char): (parts: seq<string>)
    ensures |parts| >= 1
    ensures forall i :: 0 <= i < |parts| ==> d !in parts[i]
  {
    if s == [] then [""]
    else
      var rest := Split(s[1..], d);
      if s[0] == d then [""] + rest
      else [[s[0]] + rest[0]] + rest[1..]
  }

  /** The pieces of `parts`, with `d` between each two neighbours. */
  function Join(parts: seq<string>, d: char): string
  {
    if parts == [] then ""
    else if |parts| == 1 then parts[0]
    else parts[0] + [d] + Join(parts[1..], d)
  }

  /** Splitting a piece without `d` followed by `tail` glues the piece onto the first piece of `tail`. */
  lemma {:induction false} SplitPrefix(a: string, tail: string, d: char)
    requires d !in a
    ensures Split(a + tail, d) == [a + Split(tail, d)[0]] + Split(tail, d)[1..]
  {
    if a != [] {
      assert (a + tail)[1..] == a[1..] + tail;
      SplitPrefix(a[1..], tail, d);
      assert [a[0]] + (a[1..] + Split(tail, d)[0]) == a + Split(tail, d)[0];
    } else {
      var parts := Split(tail, d);
      assert a + tail == tail;
      assert a + parts[0] == parts[0];
      assert parts == [parts[0]] + parts[1..];
    }
  }

  /** Two pieces without `d`, with one `d` between them, split back into those two pieces. */
  lemma SplitPair(a: string, b: string, d: char)
    requires d !in a && d !in b
    ensures Split(a + [d] + b, d) == [a, b]
  {
    SplitJoin([b], d);
    assert Split(b, d) == [b];
    assert ([d] + b)[1..] == b;
    assert Split([d] + b, d) == [""] + [b];
    SplitPrefix(a, [d] + b, d);
    assert a + [d] + b == a + ([d] + b);
    assert a + "" == a;
  }

  /** Splitting undoes joining, when no piece holds the separator. */
  lemma {:induction false} SplitJoin(parts: seq<string>, d: char)
    requires |parts| >= 1
    requires forall i :: 0 <= i < |parts| ==> d !in parts[i]
    ensures Split(Join(parts, d), d) == parts
  {
    if |parts| == 1 {
      SplitPrefix(parts[0], "", d);
      assert Split("", d) == [""];
      assert parts[0] + "" == parts[0];
      assert parts == [parts[0]];
    } else {
      var rest := Join(parts[1..], d);
      SplitJoin(parts[1..], d);
      SplitPrefix(parts[0], [d] + rest, d);
      assert ([d] + rest)[1..] == rest;
      assert Split([d] + rest, d) == [""] + Split(rest, d);
      assert parts[0] + [d] + rest == parts[0] + ([d] + rest);
      assert parts[0] + "" == parts[0];
      assert parts == [parts[0]] + parts[1..];
    }
  }

  /** Joining undoes splitting. */
  lemma {:induction false} JoinSplit(s: string, d: char)
    ensures Join(Split(s, d), d) == s
  {
    if s != [] {
      var rest := Split(s[1..], d);
      JoinSplit(s[1..], d);
      if s[0] == d {
        assert Split(s, d)[1..] == rest;
      } else {
        var parts := Split(s, d);
        assert parts[0] == [s[0]] + rest[0];
        if |rest| == 1 {
          assert s == [s[0]] + s[1..];
        } else {
          assert parts[1..] == rest[1..];
          assert Join(rest, d) == rest[0] + [d] + Join(rest[1..], d);
          assert s == [s[0]] + s[1..];
        }
      }
    }
  }

  // ---------------------------------------------------------------------------
  // ASCII case mapping
  // ---------------------------------------------------------------------------

  function LowerChar(c: char): char {
    if 'A' <= c <= 'Z' then (c as int + 32) as char else c
  }

  /** `s` with ASCII capitals mapped to small letters and everything else kept. */
  function Lower(s: string): string {
    if s == [] then "" else [LowerChar(s[0])] + Lower(s[1..])
  }

  /** Lower-casing twice is lower-casing once. */
  lemma {:induction false} LowerIdempotent(s: string)
    ensures Lower(Lower(s)) == Lower(s)
  {
    if s != [] {
      LowerIdempotent(s[1..]);
      assert Lower(s)[1..] == Lower(s[1..]);
    }
  }

  /** Text made only of characters that have no case is its own lower case. */
  lemma {:induction false} LowerCaseless(s: string)
    requires forall i :: 0 <= i < |s| ==> !('A' <= s[i] <= 'Z')
    ensures Lower(s) == s
  {
    if s != [] {
      LowerCaseless(s[1..]);
    }
  }

  /** Lower-casing distributes over concatenation. */
  lemma {:induction false} LowerAppend(a: string, b: string)
    ensures Lower(a + b) == Lower(a) + Lower(b)
  {
    if a != [] {
      assert (a + b)[1..] == a[1..] + b;
      LowerAppend(a[1..], b);
    } else {
      assert a + b == b;
    }
  }

  /** ASCII case-insensitive equality, the comparison Swift's `caseInsensitiveCompare` makes on ASCII text. */
  predicate EqualsIgnoringCase(a: string, b: string) {
    Lower(a) == Lower(b)
  }

  // ---------------------------------------------------------------------------
  // Decimal text of integers
  // ---------------------------------------------------------------------------

  predicate IsDigit(c: char) {
    '0' <= c <= '9'
  }

  predicate AllDigits(s: string) {
    forall i :: 0 <= i < |s| ==> IsDigit(s[i])
  }

  function DigitChar(n: nat): (c: char)
    requires n < 10
    ensures IsDigit(c) && c as int - '0' as int == n
  {
    (n + '0' as int) as char
  }

  /** Decimal digits of `n` with no leading zero. */
  function NatText(n: nat): (s: string)
    ensures |s| >= 1 && AllDigits(s)
  {
    if n < 10 then [DigitChar(n)] else NatText(n / 10) + [DigitChar(n % 10)]
  }

  /** The text JavaScript's `Number.prototype.toString` gives for an integer. */
  function IntText(i: int): string {
    if i < 0 then "-" + NatText(-i) else NatText(i)
  }

  /** The value of a run of decimal digits. */
  function DigitsValue(s: string): nat
    requires AllDigits(s)
  {
    if s == [] then 0
    else DigitsValue(s[..|s| - 1]) * 10 + (s[|s| - 1] as int - '0' as int)
  }

  /**
   * Integer text as a decimal number parser reads it: an optional minus sign
   * followed by one or more decimal digits. Anything else is not a number.
   */
  function ParseInteger(s: string): Option<int> {
    if |s| >= 2 && s[0] == '-' && AllDigits(s[1..]) then
      var magnitude: int := DigitsValue(s[1..]);
      Some(-magnitude)
    else if |s| >= 1 && AllDigits(s) then Some(DigitsValue(s))
    else None
  }

  lemma {:induction false} NatTextValue(n: nat)
    ensures DigitsValue(NatText(n)) == n
  {
    if n >= 10 {
      var s := NatText(n);
      NatTextValue(n / 10);
      assert s[..|s| - 1] == NatText(n / 10);
    }
  }

  /** The decimal text of every integer reads back as that integer. */
  lemma ParseIntText(i: int)
    ensures ParseInteger(IntText(i)) == Some(i)
  {
    if i < 0 {
      var s := IntText(i);
      assert s[1..] == NatText(-i);
      NatTextValue(-i);
    } else {
      NatTextValue(i);
    }
  }

  /** The decimal text of an integer holds only digits and the minus sign. */
  lemma IntTextAlphabet(i: int)
    ensures forall k :: 0 <= k < |IntText(i)| ==> IsDigit(IntText(i)[k]) || IntText(i)[k] == '-'
  {
    if i < 0 {
      var s := IntText(i);
      assert forall k :: 1 <= k < |s| ==> s[k] == NatText(-i)[k - 1];
    }
  }
}
