/** Python's str.split with a one-character separator, and numbers in digits. */
module Text {

  function Split(s: string, sep: char): (parts: seq<string>)
    ensures |parts| >= 1
  {
    if s == "" then [""]
    else
      var parts := Split(s[1..], sep);
      if s[0] == sep then [""] + parts else [[s[0]] + parts[0]] + parts[1..]
  }

  lemma {:induction false} SplitOfSum(a: string, b: string, sep: char)
    ensures Split(a + [sep] + b, sep) == Split(a, sep) + Split(b, sep)
  {
    var s := a + [sep] + b;
    if a == "" {
      assert s[1..] == b && s[0] == sep;
    } else {
      assert s[1..] == a[1..] + [sep] + b && s[0] == a[0];
      SplitOfSum(a[1..], b, sep);
    }
  }

  lemma SplitOfJoin(a: string, b: string, sep: char)
    ensures |Split(a + [sep] + b, sep)| == |Split(a, sep)| + |Split(b, sep)|
    ensures sep !in a ==> Split(a + [sep] + b, sep) == [a] + Split(b, sep)
  {
    SplitOfSum(a, b, sep);
    SplitOfWord(a, sep);
  }

  lemma {:induction false} PartsHaveNoSep(s: string, sep: char)
    ensures forall part :: part in Split(s, sep) ==> sep !in part
  {
    if s != "" { PartsHaveNoSep(s[1..], sep); }
  }

  lemma {:induction false} SplitOfWord(a: string, sep: char)
    ensures |Split(a, sep)| == 1 <==> sep !in a
    ensures sep !in a ==> Split(a, sep) == [a]
  {
    if a != "" {
      SplitOfWord(a[1..], sep);
      assert a == [a[0]] + a[1..];
    }
  }

  function LastExtended(parts: seq<string>, b: string): (more: seq<string>)
    requires parts != []
    ensures |more| == |parts|
  {
    parts[..|parts| - 1] + [parts[|parts| - 1] + b]
  }

  function FirstExtended(c: char, parts: seq<string>): (more: seq<string>)
    requires parts != []
    ensures |more| == |parts|
  {
    [[c] + parts[0]] + parts[1..]
  }

  lemma BothExtended(c: char, parts: seq<string>, b: string)
    requires parts != []
    ensures FirstExtended(c, LastExtended(parts, b)) == LastExtended(FirstExtended(c, parts), b)
  {
    if |parts| == 1 { assert [c] + (parts[0] + b) == [c] + parts[0] + b; }
  }

  /** More text without a separator only extends the last part. */
  lemma {:induction false} SplitOfMore(a: string, b: string, sep: char)
    requires sep !in b
    ensures Split(a + b, sep) == LastExtended(Split(a, sep), b)
  {
    if a == "" {
      assert a + b == b;
      SplitOfWord(b, sep);
    } else {
      assert (a + b)[1..] == a[1..] + b;
      SplitOfMore(a[1..], b, sep);
      var rest := Split(a[1..], sep);
      if a[0] != sep {
        BothExtended(a[0], rest, b);
      } else {
        assert [""] + LastExtended(rest, b) == LastExtended([""] + rest, b);
      }
    }
  }

  ghost predicate AllDigits(s: string) { forall i :: 0 <= i < |s| ==> '0' <= s[i] <= '9' }

  /** What the digits of `s` say in base ten. */
  ghost function NumberOf(s: string): int {
    if s == "" then 0
    else NumberOf(s[..|s| - 1]) * 10 + (s[|s| - 1] as int - '0' as int)
  }
}
