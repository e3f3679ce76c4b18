/** The text of a remote listing: what the script prints and what `parse_list_output` reads back. */
module SshOutput {
  import opened Wrappers
  import opened Retention
  import opened Text

  // ----- Python's str.splitlines()

  predicate IsBreak(c: char) {
    c in {'\n', '\r', '\U{0B}', '\U{0C}', '\U{1C}', '\U{1D}', '\U{1E}', '\U{85}', '\U{2028}', '\U{2029}'}
  }

  predicate OneLine(s: string) { forall i :: 0 <= i < |s| ==> !IsBreak(s[i]) }

  function FirstBreak(s: string): (k: nat)
    ensures k <= |s| && OneLine(s[..k]) && (k < |s| ==> IsBreak(s[k]))
  {
    if s == "" || IsBreak(s[0]) then 0
    else
      var k := FirstBreak(s[1..]);
      assert s[..k + 1] == [s[0]] + s[1..][..k];
      k + 1
  }

  function SplitLines(s: string): seq<string>
    decreases |s|
  {
    if s == "" then []
    else
      var k := FirstBreak(s);
      if k == |s| then [s]
      else if s[k] == '\r' && k + 1 < |s| && s[k + 1] == '\n' then [s[..k]] + SplitLines(s[k + 2..])
      else [s[..k]] + SplitLines(s[k + 1..])
  }

  // ----- Decimal integers

  function Decimal(n: nat): (s: string)
    ensures |s| >= 1
  {
    if n < 10 then [('0' as int + n) as char] else Decimal(n / 10) + Decimal(n % 10)
  }

  function IntText(n: int): string {
    if n < 0 then "-" + Decimal(-n) else Decimal(n)
  }

  function ParseDigits(s: string): Option<nat>
    requires s != ""
  {
    var last := s[|s| - 1];
    if !('0' <= last <= '9') then None
    else
      var d := last as int - '0' as int;
      if |s| == 1 then Some(d)
      else match ParseDigits(s[..|s| - 1])
           case None => None
           case Some(n) => Some(10 * n + d)
  }

  /** int(text), for plain decimals; anything else raises. */
  function ParseInt(s: string): Option<int> {
    if s == "" then None
    else if s[0] == '-' && |s| > 1 then
      match ParseDigits(s[1..])
      case None => None
      case Some(n) => var value: int := n; Some(-value)
    else
      match ParseDigits(s)
      case None => None
      case Some(n) => Some(n)
  }

  predicate Plain(s: string) { OneLine(s) && ' ' !in s }

  lemma {:induction false} DecimalRoundTrip(n: nat)
    ensures ParseDigits(Decimal(n)) == Some(n)
    ensures forall i :: 0 <= i < |Decimal(n)| ==> '0' <= Decimal(n)[i] <= '9'
  {
    if n >= 10 {
      DecimalRoundTrip(n / 10);
      DecimalRoundTrip(n % 10);
      var s := Decimal(n);
      assert s[..|s| - 1] == Decimal(n / 10) && s[|s| - 1] == Decimal(n % 10)[0];
    }
  }

  lemma IntRoundTrip(n: int)
    ensures ParseInt(IntText(n)) == Some(n) && Plain(IntText(n))
  {
    var m := if n < 0 then -n else n;
    DecimalRoundTrip(m);
    assert IntText(n) == (if n < 0 then "-" + Decimal(m) else Decimal(m));
    if n < 0 { assert IntText(n)[1..] == Decimal(m); }
  }

  // ----- Printing and parsing

  /** One line of the script's output; `mtime` in whole seconds. */
  datatype Entry = Entry(complete: bool, id: string, mtime: int)

  function Status(x: Entry): string { if x.complete then "COMPLETE" else "PARTIAL" }

  function Line(x: Entry): string {
    Status(x) + " " + (x.id + " " + IntText(x.mtime))
  }

  function Output(xs: seq<Entry>): string {
    if xs == [] then "" else Line(xs[0]) + "\n" + Output(xs[1..])
  }

  datatype Parsed = Ignored | Read(row: StoredBackup) | Raises

  function ParseLine(line: string): Parsed {
    var parts := Split(line, ' ');
    if |parts| != 3 then Ignored
    else match ParseInt(parts[2])
         case None => Raises
         case Some(t) => Read(StoredBackup(parts[1], parts[0] == "COMPLETE", t * SECOND))
  }

  /** The rows of the lines in order; None when some line makes int() raise. */
  function ParseLines(lines: seq<string>): Option<seq<StoredBackup>> {
    if lines == [] then Some([])
    else
      var n := |lines| - 1;
      match ParseLines(lines[..n])
      case None => None
      case Some(rows) =>
        match ParseLine(lines[n])
        case Ignored => Some(rows)
        case Read(b) => Some(rows + [b])
        case Raises => None
  }

  method ParseListOutput(stdout: string) returns (r: Option<seq<StoredBackup>>)
    ensures r == ParseLines(SplitLines(stdout))
  {
    var lines := SplitLines(stdout);
    var results: seq<StoredBackup> := [];
    for i := 0 to |lines|
      invariant ParseLines(lines[..i]) == Some(results)
    {
      assert lines[..i + 1][..i] == lines[..i];
      var parts := Split(lines[i], ' ');
      if |parts| == 3 {
        var t := ParseInt(parts[2]);
        if t.None? {
          RaisingIsFinal(lines, i + 1);
          return None;
        }
        results := results + [StoredBackup(parts[1], parts[0] == "COMPLETE", t.value * SECOND)];
      }
    }
    assert lines[..|lines|] == lines;
    return Some(results);
  }

  lemma {:induction false} RaisingIsFinal(lines: seq<string>, i: nat)
    requires i <= |lines| && ParseLines(lines[..i]) == None
    ensures ParseLines(lines) == None
    decreases |lines|
  {
    if i == |lines| {
      assert lines[..i] == lines;
    } else {
      var n := |lines| - 1;
      assert lines[..n][..i] == lines[..i];
      RaisingIsFinal(lines[..n], i);
    }
  }

  function RowOf(x: Entry): StoredBackup { StoredBackup(x.id, x.complete, x.mtime * SECOND) }

  /** What comes back: every entry whose id has no space, in order. */
  function Readable(xs: seq<Entry>): seq<StoredBackup> {
    if xs == [] then []
    else
      var n := |xs| - 1;
      Readable(xs[..n]) + (if ' ' in xs[n].id then [] else [RowOf(xs[n])])
  }

  lemma OneLineJoin(a: string, b: string)
    requires OneLine(a) && OneLine(b)
    ensures OneLine(a + " " + b)
  {
    var s := a + " " + b;
    forall i | 0 <= i < |s| ensures !IsBreak(s[i]) {
      assert s[i] == if i < |a| then a[i] else if i == |a| then ' ' else b[i - |a| - 1];
    }
  }

  lemma LineIsOneLine(x: Entry)
    requires OneLine(x.id)
    ensures OneLine(Line(x))
  {
    IntRoundTrip(x.mtime);
    OneLineJoin(x.id, IntText(x.mtime));
    OneLineJoin(Status(x), x.id + " " + IntText(x.mtime));
  }

  lemma SplitOfLine(x: Entry)
    ensures ' ' in x.id ==> |Split(Line(x), ' ')| > 3
    ensures ' ' !in x.id ==> Split(Line(x), ' ') == [Status(x), x.id, IntText(x.mtime)]
  {
    var t := IntText(x.mtime);
    IntRoundTrip(x.mtime);
    SplitOfJoin(Status(x), x.id + " " + t, ' ');
    SplitOfJoin(x.id, t, ' ');
    SplitOfWord(x.id, ' ');
    SplitOfWord(t, ' ');
    assert ' ' !in Status(x);
  }

  lemma LineRoundTrip(x: Entry)
    ensures ParseLine(Line(x)) == if ' ' in x.id then Ignored else Read(RowOf(x))
  {
    SplitOfLine(x);
    IntRoundTrip(x.mtime);
    assert Status(x) == "COMPLETE" <==> x.complete;
  }

  lemma {:induction false} FirstBreakAt(s: string, i: nat)
    requires i < |s| && IsBreak(s[i]) && OneLine(s[..i])
    ensures FirstBreak(s) == i
  {
    if i > 0 {
      assert s[..i][0] == s[0];
      assert s[1..][..i - 1] == s[..i][1..];
      FirstBreakAt(s[1..], i - 1);
    }
  }

  lemma FirstLine(line: string, rest: string)
    requires OneLine(line)
    ensures SplitLines(line + "\n" + rest) == [line] + SplitLines(rest)
  {
    var s := line + "\n" + rest;
    assert s[..|line|] == line && s[|line|] == '\n' && s[|line| + 1..] == rest;
    FirstBreakAt(s, |line|);
  }

  function Lines(xs: seq<Entry>): seq<string> {
    seq(|xs|, i requires 0 <= i < |xs| => Line(xs[i]))
  }

  lemma LinesOfRest(xs: seq<Entry>)
    requires xs != []
    ensures Lines(xs) == [Line(xs[0])] + Lines(xs[1..])
  {}

  lemma {:induction false} OutputLines(xs: seq<Entry>)
    requires forall i :: 0 <= i < |xs| ==> OneLine(xs[i].id)
    ensures SplitLines(Output(xs)) == Lines(xs)
  {
    if xs != [] {
      LineIsOneLine(xs[0]);
      OutputLines(xs[1..]);
      FirstLine(Line(xs[0]), Output(xs[1..]));
      LinesOfRest(xs);
    }
  }

  lemma ParseOneMore(lines: seq<string>, line: string, rows: seq<StoredBackup>)
    requires ParseLines(lines) == Some(rows)
    ensures ParseLine(line).Ignored? ==> ParseLines(lines + [line]) == Some(rows)
    ensures ParseLine(line).Read? ==> ParseLines(lines + [line]) == Some(rows + [ParseLine(line).row])
  {
    assert (lines + [line])[..|lines|] == lines;
  }

  lemma LinesOfMore(xs: seq<Entry>, x: Entry)
    ensures Lines(xs + [x]) == Lines(xs) + [Line(x)]
  {}

  lemma ReadableOfMore(xs: seq<Entry>, x: Entry)
    ensures Readable(xs + [x]) == if ' ' in x.id then Readable(xs) else Readable(xs) + [RowOf(x)]
  {
    assert (xs + [x])[..|xs|] == xs;
  }

  lemma {:induction false} LinesParse(xs: seq<Entry>)
    ensures ParseLines(Lines(xs)) == Some(Readable(xs))
  {
    if xs == [] {
      assert Lines(xs) == [];
    } else {
      var n := |xs| - 1;
      var front, x := xs[..n], xs[n];
      assert front + [x] == xs;
      LinesParse(front);
      LineRoundTrip(x);
      ParseOneMore(Lines(front), Line(x), Readable(front));
      LinesOfMore(front, x);
      ReadableOfMore(front, x);
    }
  }

  /** Reading back what the script printed: all entries with space-free ids, unchanged and in order. */
  lemma ListingRoundTrip(xs: seq<Entry>)
    requires forall i :: 0 <= i < |xs| ==> OneLine(xs[i].id)
    ensures ParseLines(SplitLines(Output(xs))) == Some(Readable(xs))
  {
    OutputLines(xs);
    LinesParse(xs);
  }

  // ----- Ids that come back never hold a line break

  lemma {:induction false} LinesAreOneLine(s: string)
    ensures forall line :: line in SplitLines(s) ==> OneLine(line)
    decreases |s|
  {
    if s != "" {
      var k := FirstBreak(s);
      if k < |s| {
        LinesAreOneLine(s[k + 1..]);
        if k + 2 <= |s| { LinesAreOneLine(s[k + 2..]); }
      }
    }
  }

  lemma {:induction false} PartsAreOneLine(line: string, sep: char)
    requires OneLine(line)
    ensures forall part :: part in Split(line, sep) ==> OneLine(part)
  {
    if line != "" {
      assert forall i :: 0 <= i < |line[1..]| ==> line[1..][i] == line[i + 1];
      PartsAreOneLine(line[1..], sep);
      assert OneLine(Split(line[1..], sep)[0]);
    }
  }

  lemma {:induction false} ParsedIdsAreOneLine(lines: seq<string>)
    requires forall line :: line in lines ==> OneLine(line)
    ensures ParseLines(lines).Some? ==> forall b :: b in ParseLines(lines).value ==> OneLine(b.id)
  {
    if lines != [] {
      var n := |lines| - 1;
      ParsedIdsAreOneLine(lines[..n]);
      PartsAreOneLine(lines[n], ' ');
    }
  }

  // ----- An id that does hold one

  lemma Assoc<T>(a: seq<T>, b: seq<T>, c: seq<T>)
    ensures a + b + c == a + (b + c)
  {}

  lemma Regroup<T>(first: seq<T>, a: seq<T>, br: seq<T>, b: seq<T>, sep: seq<T>, t: seq<T>)
    ensures first + (a + br + b + (sep + t)) + br == first + a + br + (b + sep + t + br)
  {
    Assoc(a + br, b, sep + t);
    Assoc(b, sep, t);
    Assoc(first, a + br, b + sep + t);
    Assoc(first, a, br);
    Assoc(first + a + br, b + sep + t, br);
  }

  lemma OutputOfOne(x: Entry)
    ensures Output([x]) == Line(x) + "\n"
  {
    assert [x][1..] == [] && Line(x) + "\n" + "" == Line(x) + "\n";
  }

  lemma LastLine(line: string)
    requires OneLine(line)
    ensures SplitLines(line + "\n") == [line]
  {
    FirstLine(line, "");
    assert line + "\n" + "" == line + "\n";
  }

  /** A line break inside an id gives two lines. */
  lemma BrokenEntry(x: Entry, a: string, b: string)
    requires x.id == a + "\n" + b && OneLine(a) && OneLine(b)
    ensures SplitLines(Output([x])) == [Status(x) + " " + a, b + " " + IntText(x.mtime)]
  {
    var first, t := Status(x) + " ", IntText(x.mtime);
    OutputOfOne(x);
    Assoc(x.id, " ", t);
    Regroup(first, a, "\n", b, " ", t);
    IntRoundTrip(x.mtime);
    OneLineJoin(Status(x), a);
    OneLineJoin(b, t);
    FirstLine(first + a, b + " " + t + "\n");
    LastLine(b + " " + t);
  }

  lemma TwoWords(a: string, b: string)
    requires ' ' !in a && ' ' !in b
    ensures ParseLine(a + " " + b).Ignored?
  {
    SplitOfJoin(a, b, ' ');
    SplitOfWord(b, ' ');
  }

  lemma ForgedLine(mtime: int)
    ensures ParseLine("PARTIAL " + " " + IntText(mtime)) == Read(StoredBackup("", false, mtime * SECOND))
  {
    var x := Entry(false, "", mtime);
    LineRoundTrip(x);
    assert "PARTIAL " == "PARTIAL" + " " && "" + " " == " ";
    Assoc("PARTIAL" + " ", " ", IntText(mtime));
  }

  lemma TwoLines(a: string, b: string)
    requires ParseLine(a).Ignored?
    ensures ParseLine(b).Ignored? ==> ParseLines([a, b]) == Some([])
    ensures ParseLine(b).Read? ==> ParseLines([a, b]) == Some([ParseLine(b).row])
  {
    ParseOneMore([], a, []);
    ParseOneMore([a], b, []);
    assert [] + [a] == [a] && [a] + [b] == [a, b];
    if ParseLine(b).Read? { assert [] + [ParseLine(b).row] == [ParseLine(b).row]; }
  }

  lemma BrokenIsIgnored(x: Entry, a: string, b: string)
    requires x.complete && x.id == a + "\n" + b && Plain(a) && Plain(b)
    ensures ParseLines(SplitLines(Output([x]))) == Some([])
  {
    BrokenEntry(x, a, b);
    IntRoundTrip(x.mtime);
    assert ' ' !in Status(x);
    TwoWords(Status(x), a);
    TwoWords(b, IntText(x.mtime));
    TwoLines(Status(x) + " " + a, b + " " + IntText(x.mtime));
  }

  lemma BrokenIsForged(x: Entry, a: string)
    requires x.complete && x.id == a + "\n" + "PARTIAL " && Plain(a)
    ensures ParseLines(SplitLines(Output([x]))) == Some([StoredBackup("", false, x.mtime * SECOND)])
  {
    BrokenEntry(x, a, "PARTIAL ");
    assert ' ' !in Status(x);
    TwoWords(Status(x), a);
    ForgedLine(x.mtime);
    TwoLines(Status(x) + " " + a, "PARTIAL " + " " + IntText(x.mtime));
  }

  // ----- What the functions mean, text by text

  lemma {:induction false} DecimalRead(n: nat)
    ensures AllDigits(Decimal(n)) && NumberOf(Decimal(n)) == n
    ensures n >= 10 ==> Decimal(n)[0] != '0'
    ensures n >= 1 ==> Decimal(n)[0] != '0'
    ensures n < 10 ==> |Decimal(n)| == 1
  {
    var s := Decimal(n);
    if n >= 10 {
      DecimalRead(n / 10);
      DecimalRead(n % 10);
      assert s[..|s| - 1] == Decimal(n / 10) && s[|s| - 1] == Decimal(n % 10)[0];
      assert NumberOf(Decimal(n % 10)) == Decimal(n % 10)[0] as int - '0' as int;
    } else {
      assert s[..0] == "";
    }
  }

  lemma {:induction false} DigitsParse(s: string)
    requires s != ""
    ensures ParseDigits(s).Some? <==> AllDigits(s)
    ensures AllDigits(s) ==> ParseDigits(s) == Some(NumberOf(s))
  {
    var n := |s| - 1;
    assert s == s[..n] + [s[n]];
    if n > 0 { DigitsParse(s[..n]); }
  }

  /** Digits give their number, digits behind a minus its negative; all else raises. */
  lemma IntMeans(s: string)
    ensures s != "" && AllDigits(s) ==> ParseInt(s) == Some(NumberOf(s))
    ensures |s| > 1 && s[0] == '-' && AllDigits(s[1..]) ==> ParseInt(s) == Some(-NumberOf(s[1..]))
    ensures !(s != "" && AllDigits(s)) && !(|s| > 1 && s[0] == '-' && AllDigits(s[1..])) ==> ParseInt(s) == None
  {
    if |s| > 1 && s[0] == '-' {
      DigitsParse(s[1..]);
    } else if s != "" {
      DigitsParse(s);
    }
  }

  /** A line of three words: the last is a time in seconds, and only the first word COMPLETE means complete. */
  lemma LineMeans(status: string, id: string, t: string)
    requires ' ' !in status && ' ' !in id && t != "" && AllDigits(t)
    ensures ParseLine(status + " " + (id + " " + t))
            == Read(StoredBackup(id, status == "COMPLETE", NumberOf(t) * 1_000_000))
  {
    SplitOfJoin(status, id + " " + t, ' ');
    SplitOfJoin(id, t, ' ');
    SplitOfWord(t, ' ');
    IntMeans(t);
  }

  /** A line of any other number of words is passed over. */
  lemma OtherLinesAreIgnored(line: string)
    ensures ParseLine(line).Ignored? <==> |Split(line, ' ')| != 3
  {}

  /** Every kind of line break ends a line. */
  lemma BreaksMean(a: string, c: char, b: string)
    requires c in ['\n', '\r', 11 as char, 12 as char, 28 as char, 29 as char, 30 as char,
                   133 as char, 8232 as char, 8233 as char]
    requires OneLine(a) && OneLine(b) && b != ""
    ensures SplitLines(a + [c] + b) == [a, b] && SplitLines(a + [c]) == [a]
  {
    SplitAtBreak(a, c, b);
    SplitAtBreak(a, c, "");
    assert a + [c] + "" == a + [c];
  }

  /** A return before a newline is one break with it. */
  lemma ReturnNewlineMeans(a: string, b: string)
    requires OneLine(a) && OneLine(b) && b != ""
    ensures SplitLines(a + "\r\n" + b) == [a, b] && SplitLines(a + "\r\n") == [a]
  {
    ReturnNewlineSplits(a, b);
    ReturnNewlineSplits(a, "");
    NoBreak(b);
    assert a + "\r\n" + "" == a + "\r\n";
  }

  lemma ReturnNewlineSplits(a: string, b: string)
    requires OneLine(a)
    ensures SplitLines(a + "\r\n" + b) == [a] + SplitLines(b)
  {
    var s := a + "\r\n" + b;
    assert s[..|a|] == a && s[|a|] == '\r' && s[|a| + 1] == '\n' && s[|a| + 2..] == b;
    FirstBreakAt(s, |a|);
  }

  lemma NoBreak(s: string)
    requires OneLine(s) && s != ""
    ensures SplitLines(s) == [s]
  {
    var k := FirstBreak(s);
    assert k == |s| && s[..k] == s;
  }

  lemma SplitAtBreak(a: string, c: char, b: string)
    requires OneLine(a) && IsBreak(c) && OneLine(b)
    ensures SplitLines(a + [c] + b) == [a] + (if b == "" then [] else [b])
  {
    var s := a + [c] + b;
    assert s[..|a|] == a && s[|a|] == c && s[|a| + 1..] == b;
    FirstBreakAt(s, |a|);
    if b != "" {
      NoBreak(b);
      assert s[|a| + 1] == b[0];
    }
  }
}
