/** The string searches the command line relies on, and decimal numerals. */
module Text {
  /** strings.IndexByte: the first position of c, or -1. */
  function IndexOf(s: string, c: char): (i: int)
    ensures -1 <= i < |s|
    ensures i == -1 <==> c !in s
    ensures i >= 0 ==> s[i] == c && c !in s[..i]
  {
    if s == "" then -1
    else if s[0] == c then 0
    else
      var i := IndexOf(s[1..], c);
      if i == -1 then -1 else assert s[..i+1] == [s[0]] + s[1..][..i]; i + 1
  }

  /** strings.LastIndexByte: the last position of c, or -1. */
  function LastIndexOf(s: string, c: char): (i: int)
    ensures -1 <= i < |s|
    ensures i == -1 <==> c !in s
    ensures i >= 0 ==> s[i] == c && c !in s[i+1..]
  {
    if s == "" then -1
    else if s[|s|-1] == c then |s| - 1
    else
      var i := LastIndexOf(s[..|s|-1], c);
      assert s == s[..|s|-1] + [s[|s|-1]];
      if i == -1 then -1 else assert s[i+1..] == s[..|s|-1][i+1..] + [s[|s|-1]]; i
  }

  /** The first separator is where the head ends. */
  lemma {:induction false} IndexAfter(head: string, c: char, tail: string)
    requires c !in head
    ensures IndexOf(head + [c] + tail, c) == |head|
  {
    if head != "" {
      assert (head + [c] + tail)[1..] == head[1..] + [c] + tail;
      IndexAfter(head[1..], c, tail);
    }
  }

  /** The last separator is where the tail begins. */
  lemma {:induction false} LastIndexBefore(head: string, c: char, tail: string)
    requires c !in tail
    ensures LastIndexOf(head + [c] + tail, c) == |head|
    decreases |tail|
  {
    var s := head + [c] + tail;
    if tail != "" {
      assert s[..|s|-1] == head + [c] + tail[..|tail|-1];
      assert s[|s|-1] == tail[|tail|-1];
      LastIndexBefore(head, c, tail[..|tail|-1]);
    }
  }

  lemma CutAt(s: string, i: nat)
    requires i < |s|
    ensures s == s[..i] + [s[i]] + s[i+1..]
  {
  }

  predicate IsDigit(c: char) {
    '0' <= c <= '9'
  }

  predicate IsNumeral(s: string) {
    s != "" && forall i :: 0 <= i < |s| ==> IsDigit(s[i])
  }

  /** The number a numeral denotes; leading zeros are allowed. */
  function Value(s: string): nat
    requires forall i :: 0 <= i < |s| ==> IsDigit(s[i])
  {
    if s == "" then 0
    else
      assert IsDigit(s[|s|-1]);
      10 * Value(s[..|s|-1]) + (s[|s|-1] as nat - '0' as nat)
  }

  /** Decimal without leading zeros, as %d prints it. */
  function Decimal(n: nat): string {
    if n < 10 then [DigitChar(n)] else Decimal(n / 10) + [DigitChar(n % 10)]
  }

  function DigitChar(d: nat): char
    requires d < 10
  {
    '0' + d as char
  }

  lemma {:induction false} DecimalDenotes(n: nat)
    ensures IsNumeral(Decimal(n)) && Value(Decimal(n)) == n
    ensures Decimal(n)[0] == '0' ==> Decimal(n) == "0"
  {
    if n >= 10 {
      DecimalDenotes(n / 10);
      assert Decimal(n)[..|Decimal(n)|-1] == Decimal(n / 10);
    } else {
      assert Value([DigitChar(n)]) == 10 * Value("") + n by {
        assert [DigitChar(n)][..0] == "";
      }
    }
  }

  // ---------------------------------------------------------------- joining and splitting

  function Join(parts: seq<string>, sep: char): string
    requires parts != []
  {
    if |parts| == 1 then parts[0] else parts[0] + [sep] + Join(parts[1..], sep)
  }

  function Split(s: string, sep: char): (parts: seq<string>)
    ensures parts != []
    decreases |s|
  {
    var i := IndexOf(s, sep);
    if i == -1 then [s] else [s[..i]] + Split(s[i+1..], sep)
  }

  lemma SplitHead(head: string, sep: char, tail: string)
    requires sep !in head
    ensures Split(head + [sep] + tail, sep) == [head] + Split(tail, sep)
  {
    var s := head + [sep] + tail;
    IndexAfter(head, sep, tail);
    assert s[..|head|] == head;
    assert s[|head|+1..] == tail;
  }

  lemma {:induction false} SplitJoin(parts: seq<string>, sep: char)
    requires parts != [] && forall i :: 0 <= i < |parts| ==> sep !in parts[i]
    ensures Split(Join(parts, sep), sep) == parts
    decreases |parts|
  {
    assert parts == [parts[0]] + parts[1..];
    if |parts| > 1 {
      SplitHead(parts[0], sep, Join(parts[1..], sep));
      SplitJoin(parts[1..], sep);
    }
  }
}
