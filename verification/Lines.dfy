/** `split('\n')` and `join('\n')`. */
module Lines {

  predicate NoNewline(s: string) { '\n' !in s }

  function Split(s: string): (r: seq<string>)
    ensures |r| > 0
    ensures forall line <- r :: NoNewline(line)
  {
    if s == "" then [""]
    else
      var rest := Split(s[1..]);
      assert NoNewline(rest[0]);
      if s[0] == '\n' then [""] + rest else [[s[0]] + rest[0]] + rest[1..]
  }

  function Join(lines: seq<string>): string
    requires |lines| > 0
  {
    if |lines| == 1 then lines[0] else lines[0] + "\n" + Join(lines[1..])
  }

  function Front<T>(s: seq<T>): seq<T>
    requires |s| > 0
  {
    s[..|s| - 1]
  }

  function Last<T>(s: seq<T>): T
    requires |s| > 0
  {
    s[|s| - 1]
  }

  lemma {:induction false} JoinSplit(s: string)
    ensures Join(Split(s)) == s
  {
    if s != "" {
      JoinSplit(s[1..]);
      var rest := Split(s[1..]);
      if s[0] == '\n' {
        assert Split(s)[1..] == rest;
        assert s == "" + "\n" + s[1..];
      } else {
        assert Split(s)[1..] == rest[1..];
        assert s == [s[0]] + s[1..];
      }
    }
  }

  lemma {:induction false} SplitPrepend(line: string, s: string)
    requires NoNewline(line)
    ensures Split(line + s) == [line + Split(s)[0]] + Split(s)[1..]
  {
    if line == "" {
      assert line + s == s;
      assert line + Split(s)[0] == Split(s)[0];
    } else {
      SplitPrepend(line[1..], s);
      assert (line + s)[1..] == line[1..] + s;
      assert line + Split(s)[0] == [line[0]] + (line[1..] + Split(s)[0]);
    }
  }

  lemma SplitFirstLine(line: string, s: string)
    requires NoNewline(line)
    ensures Split(line + "\n" + s) == [line] + Split(s)
  {
    var tail := "\n" + s;
    assert tail[1..] == s;
    assert line + "\n" + s == line + tail;
    SplitPrepend(line, tail);
    assert line + "" == line;
  }

  lemma {:induction false} SplitJoined(lines: seq<string>, b: string)
    requires |lines| > 0 && forall line <- lines :: NoNewline(line)
    ensures Split(Join(lines) + b) == Front(lines) + Split(Last(lines) + b)
  {
    if |lines| > 1 {
      SplitJoined(lines[1..], b);
      assert Join(lines) + b == lines[0] + "\n" + (Join(lines[1..]) + b);
      SplitFirstLine(lines[0], Join(lines[1..]) + b);
      assert [lines[0]] + Front(lines[1..]) == Front(lines);
    }
  }

  lemma SplitJoin(lines: seq<string>)
    requires |lines| > 0 && forall line <- lines :: NoNewline(line)
    ensures Split(Join(lines)) == lines
  {
    SplitJoined(lines, "");
    assert Join(lines) + "" == Join(lines);
    SplitPrepend(Last(lines), "");
    assert Last(lines) + "" == Last(lines);
  }

  /** Splitting what a reader has so far, then the carried remainder with the next chunk, is splitting everything. */
  lemma SplitChunk(a: string, b: string)
    ensures Split(a + b) == Front(Split(a)) + Split(Last(Split(a)) + b)
  {
    JoinSplit(a);
    SplitJoined(Split(a), b);
  }
}
