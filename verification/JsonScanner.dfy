/** JSON objects in free text: the brace scanner, the rescanning one, and the grammar both are meant to follow. */
module JsonScanner {
  import opened Wrappers

  // An object is `{ items }` where an item is a string, an object, or any character other than a
  // quote or a brace; a string is a quoted run of characters in which a backslash takes the next
  // character with it, as in section 7 of RFC 8259.

  // ---------------------------------------------------------------- grammar

  datatype StringChar = Raw(c: char) | Escape(c: char)

  datatype Item = Plain(c: char) | Quoted(chars: seq<StringChar>) | Object(items: seq<Item>)

  function CharText(c: StringChar): string {
    match c
    case Raw(x) => [x]
    case Escape(x) => ['\\', x]
  }

  function CharsText(chars: seq<StringChar>): string {
    if chars == [] then "" else CharText(chars[0]) + CharsText(chars[1..])
  }

  function Text(item: Item): string
    decreases item, 0
  {
    match item
    case Plain(c) => [c]
    case Quoted(chars) => "\"" + CharsText(chars) + "\""
    case Object(items) => "{" + Texts(items) + "}"
  }

  function Texts(items: seq<Item>): string
    decreases items, 1
  {
    if items == [] then "" else Text(items[0]) + Texts(items[1..])
  }

  predicate CharOk(c: StringChar) {
    c.Raw? ==> c.c != '"' && c.c != '\\'
  }

  predicate Ok(item: Item) {
    match item
    case Plain(c) => c != '"' && c != '{' && c != '}'
    case Quoted(chars) => forall c <- chars :: CharOk(c)
    case Object(items) => forall i <- items :: Ok(i)
  }

  ghost predicate IsObject(w: string) {
    exists o: Item :: o.Object? && Ok(o) && w == Text(o)
  }

  // ---------------------------------------------------------------- scan state

  datatype Scan = Scan(depth: nat, inString: bool, escaped: bool)

  const OUTSIDE := Scan(0, false, false)

  /** One character of either scanner; `processStringCharacter` is the branch inside a string. */
  function Step(s: Scan, c: char): Scan {
    if s.inString then
      if s.escaped then s.(escaped := false)
      else if c == '\\' then s.(escaped := true)
      else if c == '"' then s.(inString := false)
      else s
    else if c == '"' then s.(inString := true)
    else if c == '{' then s.(depth := s.depth + 1)
    else if c == '}' && s.depth > 0 then s.(depth := s.depth - 1)
    else s
  }

  function Run(s: Scan, w: string): Scan
    decreases |w|
  {
    if w == "" then s else Run(Step(s, w[0]), w[1..])
  }

  lemma {:induction false} RunAppend(s: Scan, a: string, b: string)
    ensures Run(s, a + b) == Run(Run(s, a), b)
    decreases |a|
  {
    if a == "" {
      assert a + b == b;
    } else {
      assert (a + b)[1..] == a[1..] + b;
      RunAppend(Step(s, a[0]), a[1..], b);
    }
  }

  lemma RunSnoc(s: Scan, a: string, c: char)
    ensures Run(s, a + [c]) == Step(Run(s, a), c)
  {
    RunAppend(s, a, [c]);
    assert [c][1..] == "";
  }

  lemma RunTwo(s: Scan, a: char, b: char)
    ensures Run(s, [a]) == Step(s, a)
    ensures Run(s, [a, b]) == Step(Step(s, a), b)
  {
    RunSnoc(s, "", a);
    assert "" + [a] == [a];
    RunSnoc(s, [a], b);
    assert [a] + [b] == [a, b];
  }

  /** The text returns to where it started and never goes below that depth on the way. */
  ghost predicate Level(w: string, d: nat) {
    && Run(Scan(d, false, false), w) == Scan(d, false, false)
    && forall k :: 0 <= k <= |w| ==> Run(Scan(d, false, false), w[..k]).depth >= d
  }

  /** One object as the scanners see it: opened by the first character, closed by the last and not before. */
  ghost predicate Closed(w: string) {
    && |w| > 1 && w[0] == '{'
    && Run(OUTSIDE, w) == OUTSIDE
    && forall k :: 0 < k < |w| ==> Run(OUTSIDE, w[..k]).depth > 0
  }

  lemma LevelAppend(a: string, b: string, d: nat)
    requires Level(a, d) && Level(b, d)
    ensures Level(a + b, d)
  {
    var s := Scan(d, false, false);
    RunAppend(s, a, b);
    forall k | 0 <= k <= |a + b| ensures Run(s, (a + b)[..k]).depth >= d {
      if k <= |a| {
        assert (a + b)[..k] == a[..k];
      } else {
        assert (a + b)[..k] == a + b[..k - |a|];
        RunAppend(s, a, b[..k - |a|]);
      }
    }
  }

  // ---------------------------------------------------------------- grammar text scans level

  lemma CharScan(c: StringChar, d: nat)
    requires CharOk(c)
    ensures var s := Scan(d, true, false);
            Run(s, CharText(c)) == s && forall k :: 0 <= k <= |CharText(c)| ==>
              Run(s, CharText(c)[..k]).inString && Run(s, CharText(c)[..k]).depth == d
  {
    match c
    case Raw(x) =>
      RunTwo(Scan(d, true, false), x, x);
      assert [x][..0] == "" && [x][..1] == [x];
    case Escape(x) =>
      var w := ['\\', x];
      RunTwo(Scan(d, true, false), '\\', x);
      assert w[..0] == "" && w[..1] == ['\\'] && w[..2] == w;
  }

  /** The inside of a string stays inside the string, at the same depth. */
  lemma {:induction false} CharsScan(chars: seq<StringChar>, d: nat, k: nat)
    requires forall c <- chars :: CharOk(c)
    requires k <= |CharsText(chars)|
    ensures var s := Scan(d, true, false);
            && Run(s, CharsText(chars)) == s
            && Run(s, CharsText(chars)[..k]).inString && Run(s, CharsText(chars)[..k]).depth == d
  {
    if chars != [] {
      var s := Scan(d, true, false);
      var first, rest := CharText(chars[0]), CharsText(chars[1..]);
      CharScan(chars[0], d);
      RunAppend(s, first, rest);
      if k <= |first| {
        CharsScan(chars[1..], d, 0);
        assert (first + rest)[..k] == first[..k];
      } else {
        CharsScan(chars[1..], d, k - |first|);
        assert (first + rest)[..k] == first + rest[..k - |first|];
        RunAppend(s, first, rest[..k - |first|]);
      }
    }
  }

  lemma QuotedIsLevel(chars: seq<StringChar>, d: nat)
    requires forall c <- chars :: CharOk(c)
    ensures Level(Text(Quoted(chars)), d)
  {
    var s, inner := Scan(d, false, false), CharsText(chars);
    var w := "\"" + inner + "\"";
    CharsScan(chars, d, 0);
    assert w == ("\"" + inner) + ['"'];
    assert ("\"" + inner)[1..] == inner;
    RunSnoc(s, "\"" + inner, '"');
    forall k | 0 <= k <= |w| ensures Run(s, w[..k]).depth >= d {
      if 0 < k < |w| {
        assert w[..k] == "\"" + inner[..k - 1];
        assert ("\"" + inner[..k - 1])[1..] == inner[..k - 1];
        CharsScan(chars, d, k - 1);
      } else if k == |w| {
        assert w[..k] == w;
      } else {
        assert w[..k] == "";
      }
    }
  }

  /** Braces around level text make it level one depth further out, and above it in between. */
  lemma BracesAreLevel(inner: string, d: nat)
    requires Level(inner, d + 1)
    ensures var w := "{" + inner + "}";
            Level(w, d) && forall k :: 0 < k < |w| ==> Run(Scan(d, false, false), w[..k]).depth > d
  {
    var s := Scan(d, false, false);
    var w := "{" + inner + "}";
    assert w == ("{" + inner) + ['}'];
    assert ("{" + inner)[1..] == inner;
    RunSnoc(s, "{" + inner, '}');
    forall k | 0 < k < |w| ensures Run(s, w[..k]).depth > d {
      assert w[..k] == "{" + inner[..k - 1];
      assert ("{" + inner[..k - 1])[1..] == inner[..k - 1];
    }
    assert w[..0] == "" && w[..|w|] == w;
  }

  lemma {:induction false} ItemIsLevel(item: Item, d: nat)
    requires Ok(item)
    ensures Level(Text(item), d)
    decreases item, 0
  {
    match item
    case Plain(c) => assert [c][1..] == "" && [c][..0] == "" && [c][..1] == [c];
    case Quoted(chars) => QuotedIsLevel(chars, d);
    case Object(items) =>
      ItemsAreLevel(items, d + 1);
      BracesAreLevel(Texts(items), d);
  }

  lemma {:induction false} ItemsAreLevel(items: seq<Item>, d: nat)
    requires forall i <- items :: Ok(i)
    ensures Level(Texts(items), d)
    decreases items, 1
  {
    if items != [] {
      ItemIsLevel(items[0], d);
      ItemsAreLevel(items[1..], d);
      LevelAppend(Text(items[0]), Texts(items[1..]), d);
    }
  }

  lemma ObjectIsClosed(o: Item)
    requires o.Object? && Ok(o)
    ensures Closed(Text(o))
  {
    ItemsAreLevel(o.items, 1);
    BracesAreLevel(Texts(o.items), 0);
  }

  // ---------------------------------------------------------------- level text parses

  /** Where the scan next leaves the state `p` holds in; `p` must fail somewhere. */
  lemma FirstExit(s: Scan, w: string, p: Scan -> bool) returns (k: nat)
    requires p(s) && !p(Run(s, w))
    ensures k < |w| && p(Run(s, w[..k])) && !p(Run(s, w[..k + 1]))
    ensures forall j :: 0 <= j <= k ==> p(Run(s, w[..j]))
  {
    k := 0;
    assert w[..0] == "" && w[..|w|] == w;
    while p(Run(s, w[..k + 1]))
      invariant k < |w|
      invariant forall j :: 0 <= j <= k ==> p(Run(s, w[..j]))
      decreases |w| - k
    {
      k := k + 1;
    }
  }

  /** Reading a string body: everything up to the closing quote is a sequence of string characters. */
  lemma {:induction false} ParseChars(w: string, d: nat) returns (chars: seq<StringChar>)
    requires Run(Scan(d, true, false), w) == Scan(d, true, false)
    requires forall k :: 0 <= k <= |w| ==> Run(Scan(d, true, false), w[..k]).inString
    ensures CharsText(chars) == w && forall c <- chars :: CharOk(c)
    decreases |w|
  {
    if w == "" {
      return [];
    }
    var s := Scan(d, true, false);
    RunTwo(s, w[0], w[0]);
    assert w[..1] == [w[0]] && w == [w[0]] + w[1..];
    RunAppend(s, [w[0]], w[1..]);
    var n := if w[0] == '\\' then 2 else 1;
    if n == 2 {
      assert w[..2] == [w[0], w[1]];
      RunTwo(s, w[0], w[1]);
    }
    assert w == w[..n] + w[n..];
    RunAppend(s, w[..n], w[n..]);
    assert Run(s, w[..n]) == s;
    forall k | 0 <= k <= |w[n..]| ensures Run(s, w[n..][..k]).inString {
      assert w[..n + k] == w[..n] + w[n..][..k];
      RunAppend(s, w[..n], w[n..][..k]);
    }
    var rest := ParseChars(w[n..], d);
    var first := if n == 2 then Escape(w[1]) else Raw(w[0]);
    chars := [first] + rest;
    assert CharText(first) == w[..n];
    assert chars[1..] == rest;
  }

  lemma LevelSuffix(a: string, b: string, d: nat)
    requires Level(a + b, d) && Run(Scan(d, false, false), a) == Scan(d, false, false)
    ensures Level(b, d)
  {
    var s := Scan(d, false, false);
    RunAppend(s, a, b);
    forall k | 0 <= k <= |b| ensures Run(s, b[..k]).depth >= d {
      assert (a + b)[..|a| + k] == a + b[..k];
      RunAppend(s, a, b[..k]);
    }
  }

  /** Outside strings nothing is escaped. */
  predicate Sane(s: Scan) { !s.inString ==> !s.escaped }

  lemma {:induction false} RunKeepsSane(s: Scan, w: string)
    requires Sane(s)
    ensures Sane(Run(s, w))
    decreases |w|
  {
    if w != "" { RunKeepsSane(Step(s, w[0]), w[1..]); }
  }

  /** Inside a string the depth does not change. */
  lemma {:induction false} StringKeepsDepth(s: Scan, w: string)
    requires s.inString && forall k :: 0 <= k <= |w| ==> Run(s, w[..k]).inString
    ensures Run(s, w).depth == s.depth
  {
    if w != "" {
      var front, last := w[..|w| - 1], w[|w| - 1];
      assert w == front + [last];
      RunSnoc(s, front, last);
      forall k | 0 <= k <= |front| ensures Run(s, front[..k]).inString {
        assert front[..k] == w[..k];
      }
      StringKeepsDepth(s, front);
      assert w[..|front|] == front;
    }
  }

  /** Text that starts with a quote, read from a level state, starts with a whole string. */
  lemma ParseQuoted(w: string, d: nat) returns (n: nat, item: Item)
    requires w != "" && w[0] == '"'
    requires Run(Scan(d, false, false), w) == Scan(d, false, false)
    ensures 0 < n <= |w| && Ok(item) && Text(item) == w[..n]
  {
    var inside := Scan(d, true, false);
    assert w == [w[0]] + w[1..];
    var tail := w[1..];
    var k := FirstExit(inside, tail, (s: Scan) => s.inString);
    var body := tail[..k];
    assert tail[..k + 1] == body + [tail[k]];
    RunSnoc(inside, body, tail[k]);
    forall j | 0 <= j <= |body| ensures Run(inside, body[..j]).inString {
      assert body[..j] == tail[..j];
    }
    StringKeepsDepth(inside, body);
    assert tail[k] == '"' && Run(inside, body) == inside;
    var chars := ParseChars(body, d);
    n, item := k + 2, Quoted(chars);
    assert w[..n] == "\"" + body + "\"";
  }

  /** The text between an opening brace and the brace that brings the depth back. */
  lemma InsideBraces(w: string, d: nat) returns (n: nat)
    requires w != "" && w[0] == '{'
    requires Run(Scan(d, false, false), w) == Scan(d, false, false)
    ensures 1 < n <= |w| && w[n - 1] == '}' && Level(w[1..n - 1], d + 1)
  {
    var deeper := Scan(d + 1, false, false);
    assert w == [w[0]] + w[1..];
    var tail := w[1..];
    var k := FirstExit(deeper, tail, (s: Scan) => s.depth >= d + 1);
    var inner := tail[..k];
    assert tail[..k + 1] == inner + [tail[k]];
    RunSnoc(deeper, inner, tail[k]);
    RunKeepsSane(deeper, inner);
    assert tail[k] == '}' && Run(deeper, inner) == deeper;
    forall j | 0 <= j <= |inner| ensures Run(deeper, inner[..j]).depth >= d + 1 {
      assert inner[..j] == tail[..j];
    }
    n := k + 2;
    assert w[1..n - 1] == inner;
  }

  /** The converse of `ItemsAreLevel`: level text, at least one brace deep, is a sequence of items. */
  lemma {:induction false} ParseItems(w: string, d: nat) returns (items: seq<Item>)
    requires d > 0 && Level(w, d)
    ensures Texts(items) == w && forall i <- items :: Ok(i)
    decreases |w|
  {
    if w == "" {
      return [];
    }
    var s := Scan(d, false, false);
    RunTwo(s, w[0], w[0]);
    assert w[..1] == [w[0]] && Run(s, w[..1]).depth >= d;
    assert w[0] != '}';
    var n: nat, first: Item;
    if w[0] == '"' {
      n, first := ParseQuoted(w, d);
    } else if w[0] == '{' {
      n := InsideBraces(w, d);
      var inner := ParseItems(w[1..n - 1], d + 1);
      first := Object(inner);
      assert w[..n] == "{" + w[1..n - 1] + "}";
    } else {
      n, first := 1, Plain(w[0]);
    }
    ItemIsLevel(first, d);
    assert w == w[..n] + w[n..];
    LevelSuffix(w[..n], w[n..], d);
    var rest := ParseItems(w[n..], d);
    items := [first] + rest;
    assert items[1..] == rest;
  }

  /** The grammar and the scanners describe the same objects. */
  lemma ClosedIffObject(w: string)
    ensures Closed(w) <==> IsObject(w)
  {
    if IsObject(w) {
      var o: Item :| o.Object? && Ok(o) && w == Text(o);
      ObjectIsClosed(o);
    }
    if Closed(w) {
      var n := InsideBraces(w, 0);
      assert w[..n] == "{" + w[1..n - 1] + "}";
      BracesAreLevel(w[1..n - 1], 0);
      assert w[..n][..n] == w[..n];
      assert n == |w|;
      var items := ParseItems(w[1..n - 1], 1);
      assert Text(Object(items)) == w[..n] && w[..n] == w;
    }
  }

  // ---------------------------------------------------------------- the one-pass scanner

  /** The half-open range of a top-level object: the scan is outside when it opens. */
  ghost predicate IsSnippet(text: string, a: nat, b: nat) {
    a < b <= |text| && Run(OUTSIDE, text[..a]) == OUTSIDE && Closed(text[a..b])
  }

  datatype Range = Range(start: nat, end: nat)

  predicate InRange(text: string, r: Range) { r.start < r.end <= |text| }

  lemma RunFromOutside(text: string, a: nat, k: nat)
    requires a <= k <= |text| && Run(OUTSIDE, text[..a]) == OUTSIDE
    ensures Run(OUTSIDE, text[a..k]) == Run(OUTSIDE, text[..k])
  {
    assert text[..k] == text[..a] + text[a..k];
    RunAppend(OUTSIDE, text[..a], text[a..k]);
  }

  /** A top-level object ends where the scan is outside again, for the first time since it opened. */
  lemma SnippetIff(text: string, a: nat, b: nat)
    ensures IsSnippet(text, a, b) <==>
            && a + 1 < b <= |text| && text[a] == '{'
            && Run(OUTSIDE, text[..a]) == OUTSIDE && Run(OUTSIDE, text[..b]) == OUTSIDE
            && forall k :: a < k < b ==> Run(OUTSIDE, text[..k]).depth > 0
  {
    if a + 1 < b <= |text| && Run(OUTSIDE, text[..a]) == OUTSIDE {
      RunFromOutside(text, a, b);
      forall k | a < k < b ensures Run(OUTSIDE, text[a..b][..k - a]) == Run(OUTSIDE, text[..k]) {
        assert text[a..b][..k - a] == text[a..k];
        RunFromOutside(text, a, k);
      }
      forall j | 0 < j < b - a ensures Run(OUTSIDE, text[a..b][..j]) == Run(OUTSIDE, text[..a + j]) {
        assert a < a + j < b;
        assert text[a..b][..(a + j) - a] == text[a..b][..j];
      }
    }
  }

  /** Two top-level objects that end at the same place are the same. */
  lemma SnippetStartUnique(text: string, a: nat, a': nat, b: nat)
    requires IsSnippet(text, a, b) && IsSnippet(text, a', b)
    ensures a == a'
  {
    SnippetIff(text, a, b);
    SnippetIff(text, a', b);
  }

  /** What `start` means: the brace that opened the object the scan is in, or negative outside. */
  ghost predicate OpenedAt(text: string, start: int, i: nat) {
    && i <= |text|
    && (Run(OUTSIDE, text[..i]).depth == 0 <==> start < 0)
    && (start >= 0 ==>
          && start < i && text[start] == '{' && Run(OUTSIDE, text[..start]) == OUTSIDE
          && forall k :: start < k <= i ==> Run(OUTSIDE, text[..k]).depth > 0)
  }

  /** An object that ends with this character is the one that is open. */
  lemma EndsOpenObject(text: string, start: int, i: nat, a: nat)
    requires i < |text| && OpenedAt(text, start, i) && IsSnippet(text, a, i + 1)
    ensures start == a
  {
    SnippetIff(text, a, i + 1);
    assert Run(OUTSIDE, text[..i]).depth > 0;
    SnippetIff(text, start, i + 1);
    SnippetStartUnique(text, a, start, i + 1);
  }

  /** The snippets found so far: all objects that end at or before `i`, in order. */
  ghost predicate Found(text: string, ranges: seq<Range>, snippets: seq<string>, i: nat) {
    && |snippets| == |ranges|
    && (forall n :: 0 <= n < |ranges| ==>
          && InRange(text, ranges[n]) && ranges[n].end <= i
          && snippets[n] == text[ranges[n].start..ranges[n].end]
          && IsSnippet(text, ranges[n].start, ranges[n].end))
    && (forall a: nat, b: nat :: b <= i && IsSnippet(text, a, b) ==> Range(a, b) in ranges)
    && (forall m, n :: 0 <= m < n < |ranges| ==> ranges[m].end <= ranges[n].start)
  }

  /** The texts of all top-level objects, from left to right; the objects do not overlap. */
  ghost predicate Collected(text: string, snippets: seq<string>) {
    exists ranges: seq<Range> :: Found(text, ranges, snippets, |text|)
  }

  lemma FoundPush(text: string, ranges: seq<Range>, snippets: seq<string>, start: nat, i: nat)
    requires i < |text| && OpenedAt(text, start, i) && IsSnippet(text, start, i + 1)
    requires Found(text, ranges, snippets, i)
    requires forall n :: 0 <= n < |ranges| ==> ranges[n].end <= start
    ensures Found(text, ranges + [Range(start, i + 1)], snippets + [text[start..i + 1]], i + 1)
  {
    var r := Range(start, i + 1);
    forall a: nat, b: nat | b <= i + 1 && IsSnippet(text, a, b) ensures Range(a, b) in ranges + [r] {
      if b == i + 1 { EndsOpenObject(text, start, i, a); }
    }
  }

  lemma FoundSkip(text: string, ranges: seq<Range>, snippets: seq<string>, start: int, i: nat)
    requires i < |text| && OpenedAt(text, start, i)
    requires start >= 0 ==> Run(OUTSIDE, text[..i + 1]) != OUTSIDE
    requires Found(text, ranges, snippets, i)
    ensures Found(text, ranges, snippets, i + 1)
  {
    forall a: nat, b: nat | b <= i + 1 && IsSnippet(text, a, b) ensures Range(a, b) in ranges {
      if b == i + 1 {
        EndsOpenObject(text, start, i, a);
        SnippetIff(text, a, b);
      }
    }
  }

  /**
   `collectBalancedJsonObjects`.  The result is exactly the top-level objects of the text, from
   left to right and disjoint.
   */
  method CollectBalancedJsonObjects(text: string) returns (snippets: seq<string>)
    ensures Collected(text, snippets)
  {
    snippets := [];
    ghost var ranges: seq<Range> := [];
    var start, depth, inString, escaped := -1, 0, false, false;
    for i := 0 to |text|
      invariant depth >= 0 && Run(OUTSIDE, text[..i]) == Scan(depth, inString, escaped)
      invariant inString || !escaped
      invariant OpenedAt(text, start, i)
      invariant Found(text, ranges, snippets, i)
      invariant start >= 0 ==> forall n :: 0 <= n < |ranges| ==> ranges[n].end <= start
    {
      var ch := text[i];
      assert text[..i + 1] == text[..i] + [ch];
      RunSnoc(OUTSIDE, text[..i], ch);
      if inString {
        FoundSkip(text, ranges, snippets, start, i);
        if escaped { escaped := false; }
        else if ch == '\\' { escaped := true; }
        else if ch == '"' { inString := false; }
      } else if ch == '"' {
        FoundSkip(text, ranges, snippets, start, i);
        inString := true;
      } else if ch == '{' {
        FoundSkip(text, ranges, snippets, start, i);
        if depth == 0 { start := i; }
        depth := depth + 1;
      } else if ch == '}' && depth > 0 {
        depth := depth - 1;
        if depth == 0 && start >= 0 {
          SnippetIff(text, start, i + 1);
          FoundPush(text, ranges, snippets, start, i);
          snippets := snippets + [text[start..i + 1]];
          ranges := ranges + [Range(start, i + 1)];
          start := -1;
        } else {
          FoundSkip(text, ranges, snippets, start, i);
        }
      } else {
        FoundSkip(text, ranges, snippets, start, i);
      }
    }
    assert text[..|text|] == text;
  }

  // ---------------------------------------------------------------- the rescanning implementation

  datatype StringState = StringState(escaped: bool, inString: bool)

  /** `processStringCharacter`: agrees with the scan step inside a string. */
  function ProcessStringCharacter(c: char, escaped: bool): (r: StringState)
    ensures forall d: nat {:trigger Scan(d, r.inString, r.escaped)} :: Step(Scan(d, true, escaped), c) == Scan(d, r.inString, r.escaped)
  {
    if escaped then StringState(false, true)
    else if c == '\\' then StringState(true, true)
    else if c == '"' then StringState(false, false)
    else StringState(false, true)
  }

  lemma ClosedEndUnique(text: string, start: nat, b: nat, b': nat)
    requires start < b <= b' <= |text| && Closed(text[start..b]) && Closed(text[start..b'])
    ensures b == b'
  {
    assert text[start..b'][..b - start] == text[start..b];
  }

  /** From the opening brace up to `i` the depth has not returned to zero. */
  ghost predicate StillOpen(text: string, start: nat, i: nat) {
    i <= |text| && forall k :: start < k <= i ==> Run(OUTSIDE, text[start..k]).depth > 0
  }

  lemma NeverReturned(text: string, start: nat)
    requires StillOpen(text, start, |text|)
    ensures forall b :: start < b <= |text| ==> !Closed(text[start..b])
  {
    forall b | start < b <= |text| ensures !Closed(text[start..b]) {
      assert Run(OUTSIDE, text[start..b]).depth > 0;
    }
  }

  lemma FirstReturnIsClosed(text: string, start: nat, b: nat)
    requires start + 1 < b <= |text| && text[start] == '{' && Run(OUTSIDE, text[start..b]) == OUTSIDE
    requires StillOpen(text, start, b - 1)
    ensures Closed(text[start..b])
  {
    var w := text[start..b];
    forall j | 0 < j < |w| ensures Run(OUTSIDE, w[..j]).depth > 0 {
      var k := start + j;
      assert w[..j] == text[start..k];
    }
  }

  /**
   `findJsonObjectEnd`, from an opening brace: the index of the brace that closes the object that
   starts there, or -1 exactly if the text holds no such object.
   */
  method FindJsonObjectEnd(text: string, start: nat) returns (end: int)
    requires start < |text| && text[start] == '{'
    ensures EndsAt(text, start, end)
  {
    hide Closed;
    var depth, inString, escaped := 0, false, false;
    for index := start to |text|
      invariant depth >= 0 && Run(OUTSIDE, text[start..index]) == Scan(depth, inString, escaped)
      invariant inString || !escaped
      invariant index == start ==> depth == 0 && !inString
      invariant index > start ==> depth > 0
      invariant StillOpen(text, start, index)
    {
      var character := text[index];
      assert text[start..index + 1] == text[start..index] + [character];
      RunSnoc(OUTSIDE, text[start..index], character);
      if inString {
        var state := ProcessStringCharacter(character, escaped);
        escaped, inString := state.escaped, state.inString;
      } else if character == '"' {
        inString := true;
      } else if character == '{' {
        depth := depth + 1;
      } else if character == '}' {
        depth := depth - 1;
        if depth == 0 {
          FirstReturnIsClosed(text, start, index + 1);
          return index;
        }
      }
    }
    NeverReturned(text, start);
    end := -1;
  }

  /** What `FindJsonObjectEnd` promises of its result. */
  ghost predicate EndsAt(text: string, start: nat, end: int) {
    && (end == -1 || start < end < |text|)
    && (end >= 0 ==> Closed(text[start..end + 1]))
    && (end == -1 ==> forall b :: start < b <= |text| ==> !Closed(text[start..b]))
  }

  /** The two scanners agree: from a snippet's start the rescanning one stops exactly at its end. */
  lemma SnippetEndIsFound(text: string, a: nat, b: nat, end: int)
    requires IsSnippet(text, a, b) && EndsAt(text, a, end)
    ensures end == b - 1
  {
    if end + 1 <= b { ClosedEndUnique(text, a, end + 1, b); } else { ClosedEndUnique(text, a, b, end + 1); }
  }

  /** `indexOf('{', from)`. */
  method IndexOfBrace(text: string, from: nat) returns (at: int)
    requires from <= |text|
    ensures at == -1 || (from <= at < |text| && text[at] == '{')
    ensures forall k :: from <= k < (if at == -1 then |text| else at) ==> text[k] != '{'
  {
    at := from;
    while at < |text| && text[at] != '{'
      invariant from <= at <= |text|
      invariant forall k :: from <= k < at ==> text[k] != '{'
    {
      at := at + 1;
    }
    if at == |text| { at := -1; }
  }

  /** A balanced object anywhere in the text that `parse` accepts. */
  ghost predicate Accepted<T>(text: string, parse: string -> Option<T>, r: Range) {
    InRange(text, r) && Closed(text[r.start..r.end]) && parse(text[r.start..r.end]).Some?
  }

  /** The ranges of all accepted objects in the order of their opening braces, and what they parse to. */
  ghost predicate Extracted<T>(text: string, parse: string -> Option<T>, ranges: seq<Range>, objects: seq<T>) {
    && |objects| == |ranges|
    && (forall n :: 0 <= n < |ranges| ==>
          Accepted(text, parse, ranges[n]) && parse(text[ranges[n].start..ranges[n].end]) == Some(objects[n]))
    && (forall r: Range :: Accepted(text, parse, r) ==> r in ranges)
    && (forall m, n :: 0 <= m < n < |ranges| ==> ranges[m].start < ranges[n].start)
  }

  /**
   `extractJsonObjects`, for any JSON parser: all balanced objects of the text that parse, nested
   ones included, in the order of their opening braces.
   */
  method ExtractJsonObjects<T>(text: string, parse: string -> Option<T>) returns (objects: seq<T>)
    ensures exists ranges: seq<Range> :: Extracted(text, parse, ranges, objects)
  {
    objects := [];
    ghost var ranges: seq<Range> := [];
    var start := IndexOfBrace(text, 0);
    ghost var seen := if start == -1 then |text| else start;
    while start != -1
      invariant start == -1 || (0 <= start < |text| && text[start] == '{')
      invariant seen == if start == -1 then |text| else start
      invariant |objects| == |ranges|
      invariant forall n :: 0 <= n < |ranges| ==>
                  && ranges[n].start < seen && Accepted(text, parse, ranges[n])
                  && parse(text[ranges[n].start..ranges[n].end]) == Some(objects[n])
      invariant forall r: Range :: Accepted(text, parse, r) && r.start < seen ==> r in ranges
      invariant forall m, n :: 0 <= m < n < |ranges| ==> ranges[m].start < ranges[n].start
      decreases |text| - seen
    {
      var end := FindJsonObjectEnd(text, start);
      ghost var before := ranges;
      if end != -1 {
        var value := parse(text[start..end + 1]);
        if value.Some? {
          objects := objects + [value.value];
          ranges := ranges + [Range(start, end + 1)];
        }
      }
      forall r: Range | Accepted(text, parse, r) && r.start == start ensures r in ranges {
        SameStartSameEnd(text, r, end);
      }
      var next := IndexOfBrace(text, start + 1);
      forall r: Range | Accepted(text, parse, r) ensures text[r.start] == '{' {
        assert text[r.start..r.end][0] == text[r.start];
      }
      start := next;
      seen := if start == -1 then |text| else start;
    }
    assert Extracted(text, parse, ranges, objects);
  }

  lemma SameStartSameEnd(text: string, r: Range, end: int)
    requires InRange(text, r) && Closed(text[r.start..r.end]) && EndsAt(text, r.start, end)
    ensures r.end == end + 1
  {
    if end + 1 <= r.end { ClosedEndUnique(text, r.start, end + 1, r.end); }
    else { ClosedEndUnique(text, r.start, r.end, end + 1); }
  }

  /** The two scanners together: every snippet of the one-pass scanner that parses is among the extracted objects. */
  lemma SnippetsAreExtracted<T>(text: string, parse: string -> Option<T>, snippets: seq<string>, objects: seq<T>)
    requires Collected(text, snippets)
    requires exists ranges: seq<Range> :: Extracted(text, parse, ranges, objects)
    ensures forall s <- snippets :: parse(s).Some? ==> parse(s).value in objects
  {
    var found: seq<Range> :| Found(text, found, snippets, |text|);
    var ranges: seq<Range> :| Extracted(text, parse, ranges, objects);
    forall s <- snippets | parse(s).Some? ensures parse(s).value in objects {
      var n :| 0 <= n < |snippets| && snippets[n] == s;
      assert Accepted(text, parse, found[n]);
      var m :| 0 <= m < |ranges| && ranges[m] == found[n];
      assert Some(objects[m]) == parse(s);
    }
  }

  // ---------------------------------------------------------------- text outside objects

  /** Between objects a stray closing brace is plain text. */
  predicate TopLevelOk(item: Item) {
    Ok(item) || item == Plain('}')
  }

  lemma {:induction false} TopLevelScansOutside(items: seq<Item>)
    requires forall i <- items :: TopLevelOk(i)
    ensures Run(OUTSIDE, Texts(items)) == OUTSIDE
  {
    if items != [] {
      if Ok(items[0]) {
        ItemIsLevel(items[0], 0);
      } else {
        RunTwo(OUTSIDE, '}', '}');
        assert TopLevelOk(items[0]) && items[0] == Plain('}');
      }
      assert Run(OUTSIDE, Text(items[0])) == OUTSIDE;
      TopLevelScansOutside(items[1..]);
      RunAppend(OUTSIDE, Text(items[0]), Texts(items[1..]));
    }
  }

  lemma {:induction false} ParseTopLevel(w: string) returns (items: seq<Item>)
    requires Run(OUTSIDE, w) == OUTSIDE
    ensures Texts(items) == w && forall i <- items :: TopLevelOk(i)
    decreases |w|
  {
    if w == "" {
      return [];
    }
    RunTwo(OUTSIDE, w[0], w[0]);
    assert w[..1] == [w[0]];
    var n: nat, first: Item;
    if w[0] == '"' {
      n, first := ParseQuoted(w, 0);
      ItemIsLevel(first, 0);
    } else if w[0] == '{' {
      n := InsideBraces(w, 0);
      var inner := ParseItems(w[1..n - 1], 1);
      first := Object(inner);
      assert w[..n] == "{" + w[1..n - 1] + "}";
      ItemIsLevel(first, 0);
    } else {
      n, first := 1, Plain(w[0]);
    }
    assert w == w[..n] + w[n..];
    RunAppend(OUTSIDE, w[..n], w[n..]);
    var rest := ParseTopLevel(w[n..]);
    items := [first] + rest;
    assert items[1..] == rest;
  }

  ghost predicate IsTopLevel(w: string) {
    exists items: seq<Item> :: (forall i <- items :: TopLevelOk(i)) && Texts(items) == w
  }

  /** A snippet in terms of the grammar alone: an object that follows complete top-level text. */
  lemma SnippetIffGrammar(text: string, a: nat, b: nat)
    requires a < b <= |text|
    ensures IsSnippet(text, a, b) <==> IsTopLevel(text[..a]) && IsObject(text[a..b])
  {
    ClosedIffObject(text[a..b]);
    if Run(OUTSIDE, text[..a]) == OUTSIDE {
      var items := ParseTopLevel(text[..a]);
      assert IsTopLevel(text[..a]);
    }
    if IsTopLevel(text[..a]) {
      var items: seq<Item> :| (forall i <- items :: TopLevelOk(i)) && Texts(items) == text[..a];
      TopLevelScansOutside(items);
    }
  }
}
