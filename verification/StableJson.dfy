/** The canonical JSON printer behind request fingerprints. */
module StableJson {
  import opened Wrappers

  // Two values print the same exactly when they are the same JSON value up to the order of
  // object keys, whatever the nesting, provided the comparator never ties two different keys.
  // Strings are escaped as in section 7 of RFC 8259.

  /** `Number` holds the text `JSON.stringify` gives a finite number; infinities print as null. */
  datatype Json =
    | Null
    | Bool(b: bool)
    | Number(text: string)
    | NonFinite
    | Str(s: string)
    | Arr(items: seq<Json>)
    | Obj(fields: seq<Field>)

  datatype Field = Field(key: string, value: Json)

  type KeyOrder = (string, string) -> bool

  // ---------------------------------------------------------------- measures

  function Height(v: Json): nat {
    match v
    case Arr(items) => 1 + ItemsHeight(items)
    case Obj(fields) => 1 + FieldsHeight(fields)
    case _ => 0
  }

  function ItemsHeight(items: seq<Json>): (h: nat)
    ensures forall v <- items :: Height(v) <= h
  {
    if items == [] then 0
    else
      var first, rest := Height(items[0]), ItemsHeight(items[1..]);
      assert items == [items[0]] + items[1..];
      if first > rest then first else rest
  }

  function FieldsHeight(fields: seq<Field>): (h: nat)
    ensures forall f <- fields :: Height(f.value) <= h
  {
    if fields == [] then 0
    else
      var first, rest := Height(fields[0].value), FieldsHeight(fields[1..]);
      assert fields == [fields[0]] + fields[1..];
      if first > rest then first else rest
  }

  function Width(v: Json): nat {
    match v
    case Arr(items) => |items| + 1
    case Obj(fields) => |fields| + 1
    case _ => 0
  }

  // ---------------------------------------------------------------- printing

  function HexDigit(n: nat): char
    requires n < 16
  {
    "0123456789abcdef"[n]
  }

  /** Characters that stand for themselves inside a string. */
  predicate IsPlain(c: char) {
    c != '"' && c != '\\' && c as int >= 32
  }

  /** Control characters without a letter of their own. */
  predicate IsControl(c: char) {
    c as int < 32 && c != '\n' && c != '\r' && c != '\t' && c as int != 8 && c as int != 12
  }

  function EscapeLetter(c: char): char {
    if c == '\n' then 'n'
    else if c == '\r' then 'r'
    else if c == '\t' then 't'
    else if c as int == 8 then 'b'
    else if c as int == 12 then 'f'
    else if c as int < 32 then 'u'
    else c
  }

  /** How `JSON.stringify` writes one character of a string. */
  function QuoteChar(c: char): string {
    if IsPlain(c) then [c]
    else if IsControl(c) then "\\u00" + [HexDigit(c as int / 16), HexDigit(c as int % 16)]
    else ['\\', EscapeLetter(c)]
  }

  function QuoteChars(s: string): string {
    if s == "" then "" else QuoteChar(s[0]) + QuoteChars(s[1..])
  }

  function Quote(s: string): string {
    "\"" + QuoteChars(s) + "\""
  }

  function Insert(le: KeyOrder, f: Field, s: seq<Field>): (r: seq<Field>)
    ensures |r| == |s| + 1
    ensures forall x :: x in r <==> x == f || x in s
  {
    if s == [] || le(f.key, s[0].key) then [f] + s
    else
      assert s == [s[0]] + s[1..];
      [s[0]] + Insert(le, f, s[1..])
  }

  /** `Object.entries(...).sort` by key; ties keep their order. */
  function SortFields(le: KeyOrder, s: seq<Field>): (r: seq<Field>)
    ensures |r| == |s|
    ensures forall x :: x in r <==> x in s
  {
    if s == [] then []
    else
      assert s == [s[0]] + s[1..];
      Insert(le, s[0], SortFields(le, s[1..]))
  }

  function StableStringify(le: KeyOrder, v: Json): string
    decreases Height(v), Width(v)
  {
    match v
    case Null => "null"
    case NonFinite => "null"
    case Bool(b) => if b then "true" else "false"
    case Number(text) => text
    case Str(s) => Quote(s)
    case Arr(items) => "[" + ItemsText(le, items, Height(v)) + "]"
    case Obj(fields) => "{" + FieldsText(le, SortFields(le, fields), Height(v)) + "}"
  }

  /** The items joined by commas; `h` bounds their height. */
  function ItemsText(le: KeyOrder, items: seq<Json>, h: nat): string
    requires forall v <- items :: Height(v) < h
    decreases h, |items|
  {
    if items == [] then ""
    else if |items| == 1 then StableStringify(le, items[0])
    else StableStringify(le, items[0]) + "," + ItemsText(le, items[1..], h)
  }

  function FieldText(le: KeyOrder, f: Field, h: nat): string
    requires Height(f.value) < h
    decreases h, 0
  {
    Quote(f.key) + ":" + StableStringify(le, f.value)
  }

  function FieldsText(le: KeyOrder, fields: seq<Field>, h: nat): string
    requires forall f <- fields :: Height(f.value) < h
    decreases h, |fields|
  {
    if fields == [] then ""
    else if |fields| == 1 then FieldText(le, fields[0], h)
    else FieldText(le, fields[0], h) + "," + FieldsText(le, fields[1..], h)
  }

  // ---------------------------------------------------------------- the format

  function HexValue(c: char): Option<nat> {
    if '0' <= c <= '9' then Some(c as nat - '0' as nat)
    else if 'a' <= c <= 'f' then Some(c as nat - 'a' as nat + 10)
    else None
  }

  /** The character after a backslash, as in section 7 of RFC 8259. */
  function Unescaped(c: char): Option<char> {
    match c
    case '"' => Some('"')
    case '\\' => Some('\\')
    case '/' => Some('/')
    case 'b' => Some(8 as char)
    case 'f' => Some(12 as char)
    case 'n' => Some('\n')
    case 'r' => Some('\r')
    case 't' => Some('\t')
    case _ => None
  }

  /** What the inside of a JSON string stands for; of the numeric escapes, those below 256. */
  function Unquoted(t: string): Option<string> {
    if t == "" then Some("")
    else if t[0] == '"' || t[0] as int < 32 then None
    else if t[0] != '\\' then Prepend(Some(t[0]), Unquoted(t[1..]))
    else if |t| >= 6 && t[1..4] == "u00" && HexValue(t[4]).Some? && HexValue(t[5]).Some? then
      Prepend(Some((16 * HexValue(t[4]).value + HexValue(t[5]).value) as char), Unquoted(t[6..]))
    else if |t| >= 2 then Prepend(Unescaped(t[1]), Unquoted(t[2..]))
    else None
  }

  function Prepend(c: Option<char>, rest: Option<string>): Option<string> {
    if c.Some? && rest.Some? then Some([c.value] + rest.value) else None
  }

  lemma QuotedChar(c: char, rest: string)
    ensures Unquoted(QuoteChar(c) + rest) == Prepend(Some(c), Unquoted(rest))
  {
    var t := QuoteChar(c) + rest;
    if IsPlain(c) {
      assert t[1..] == rest;
    } else if IsControl(c) {
      HexRoundTrip(c as int / 16);
      HexRoundTrip(c as int % 16);
      assert t[1..4] == "u00" && t[4] == HexDigit(c as int / 16) && t[5] == HexDigit(c as int % 16) && t[6..] == rest;
    } else {
      assert t[1] == EscapeLetter(c) && t[1] != 'u' && t[2..] == rest;
      if |t| >= 4 { assert t[1..4][0] == t[1]; }
    }
  }

  lemma HexRoundTrip(n: nat)
    requires n < 16
    ensures HexValue(HexDigit(n)) == Some(n)
  {
  }

  /** Round trip: a printed string is a JSON string, and stands for what was printed. */
  lemma {:induction false} QuotedIsRead(s: string)
    ensures |Quote(s)| >= 2 && Quote(s)[0] == Quote(s)[|Quote(s)| - 1] == '"'
    ensures Unquoted(Quote(s)[1..|Quote(s)| - 1]) == Some(s)
  {
    assert Quote(s)[1..|Quote(s)| - 1] == QuoteChars(s);
    if s != "" {
      QuotedIsRead(s[1..]);
      assert Quote(s[1..])[1..|Quote(s[1..])| - 1] == QuoteChars(s[1..]);
      QuotedChar(s[0], QuoteChars(s[1..]));
      assert [s[0]] + s[1..] == s;
    }
  }

  /** `join(',')`. */
  function Joined(parts: seq<string>): string {
    if parts == [] then ""
    else if |parts| == 1 then parts[0]
    else parts[0] + "," + Joined(parts[1..])
  }

  function TextsOf(le: KeyOrder, items: seq<Json>): seq<string> {
    seq(|items|, i requires 0 <= i < |items| => StableStringify(le, items[i]))
  }

  function MembersOf(le: KeyOrder, fields: seq<Field>): seq<string> {
    seq(|fields|, i requires 0 <= i < |fields| => Quote(fields[i].key) + ":" + StableStringify(le, fields[i].value))
  }

  lemma {:induction false} ItemsJoined(le: KeyOrder, items: seq<Json>, h: nat)
    requires forall v <- items :: Height(v) < h
    ensures ItemsText(le, items, h) == Joined(TextsOf(le, items))
    decreases |items|
  {
    hide StableStringify, Height;
    if |items| > 1 {
      ItemsJoined(le, items[1..], h);
      assert TextsOf(le, items)[1..] == TextsOf(le, items[1..]);
    }
  }

  lemma {:induction false} FieldsJoined(le: KeyOrder, fields: seq<Field>, h: nat)
    requires forall f <- fields :: Height(f.value) < h
    ensures FieldsText(le, fields, h) == Joined(MembersOf(le, fields))
    decreases |fields|
  {
    hide StableStringify, Height, Quote;
    if |fields| > 1 {
      FieldsJoined(le, fields[1..], h);
      assert MembersOf(le, fields)[1..] == MembersOf(le, fields[1..]);
    }
  }

  /** The printed form by the kind of value: literals, joined texts in brackets, joined members in braces and in key order. */
  lemma PrintedForm(le: KeyOrder, items: seq<Json>, fields: seq<Field>)
    ensures StableStringify(le, Null) == StableStringify(le, NonFinite) == "null"
    ensures StableStringify(le, Bool(true)) == "true" && StableStringify(le, Bool(false)) == "false"
    ensures StableStringify(le, Arr(items)) == "[" + Joined(TextsOf(le, items)) + "]"
    ensures StableStringify(le, Obj(fields)) == "{" + Joined(MembersOf(le, SortFields(le, fields))) + "}"
  {
    ItemsJoined(le, items, Height(Arr(items)));
    FieldsJoined(le, SortFields(le, fields), Height(Obj(fields)));
  }

  // ---------------------------------------------------------------- meaning

  /** The same JSON value up to the order of keys; infinities count as null. */
  predicate Equivalent(a: Json, b: Json)
    decreases Height(a)
  {
    match a
    case Arr(xs) =>
      b.Arr? && |xs| == |b.items| && forall i :: 0 <= i < |xs| ==> Equivalent(xs[i], b.items[i])
    case Obj(fs) =>
      b.Obj? && |fs| == |b.fields| &&
      forall f <- fs :: exists g <- b.fields :: f.key == g.key && Equivalent(f.value, g.value)
    case Null => b.Null? || b.NonFinite?
    case NonFinite => b.Null? || b.NonFinite?
    case _ => a == b
  }

  predicate NumberChar(c: char) {
    '0' <= c <= '9' || c == '-' || c == '+' || c == '.' || c == 'e' || c == 'E'
  }

  predicate NumberText(t: string) {
    t != "" && ('0' <= t[0] <= '9' || t[0] == '-') && forall c <- t :: NumberChar(c)
  }

  /** The numbers are number texts, and no object repeats a key. */
  predicate Proper(v: Json)
    decreases Height(v)
  {
    match v
    case Number(t) => NumberText(t)
    case Arr(items) => forall x <- items :: Proper(x)
    case Obj(fields) => DistinctKeys(fields) && forall f <- fields :: Proper(f.value)
    case _ => true
  }

  predicate DistinctKeys(fields: seq<Field>) {
    forall i, j :: 0 <= i < j < |fields| ==> fields[i].key != fields[j].key
  }

  // ---------------------------------------------------------------- strings are self-delimiting

  lemma HexDigitInjective(m: nat, n: nat)
    requires m < 16 && n < 16 && HexDigit(m) == HexDigit(n)
    ensures m == n
  {
  }

  lemma ControlCharInjective(c: char, d: char)
    requires c as int < 32 && d as int < 32
    requires HexDigit(c as int / 16) == HexDigit(d as int / 16) && HexDigit(c as int % 16) == HexDigit(d as int % 16)
    ensures c == d
  {
    HexDigitInjective(c as int / 16, d as int / 16);
    HexDigitInjective(c as int % 16, d as int % 16);
  }

  lemma SameEscapeSameChar(c: char, d: char)
    requires !IsPlain(c) && !IsPlain(d) && EscapeLetter(c) == EscapeLetter(d)
    ensures IsControl(c) <==> IsControl(d)
    ensures !IsControl(c) ==> c == d
  {
  }

  /** What follows an escaped character does not depend on where it is cut. */
  lemma QuoteCharPrefix(c: char, d: char, x: string, y: string)
    requires QuoteChar(c) + x == QuoteChar(d) + y
    ensures c == d && x == y
  {
    var l, r := QuoteChar(c) + x, QuoteChar(d) + y;
    assert l[0] == QuoteChar(c)[0] && r[0] == QuoteChar(d)[0];
    if !IsPlain(c) {
      hide EscapeLetter;
      assert l[1] == QuoteChar(c)[1] && r[1] == QuoteChar(d)[1];
      EscapeLetterOfControl(c);
      EscapeLetterOfControl(d);
      SameEscapeSameChar(c, d);
      if IsControl(c) {
        assert l[4] == QuoteChar(c)[4] && r[4] == QuoteChar(d)[4];
        assert l[5] == QuoteChar(c)[5] && r[5] == QuoteChar(d)[5];
        ControlCharInjective(c, d);
      }
    }
    assert x == l[|QuoteChar(c)|..] && y == r[|QuoteChar(d)|..];
  }

  lemma EscapeLetterOfControl(c: char)
    ensures IsControl(c) ==> EscapeLetter(c) == 'u'
  {
  }

  lemma QuoteCharStart(c: char)
    ensures |QuoteChar(c)| > 0 && QuoteChar(c)[0] != '"'
  {
  }

  lemma {:induction false} QuoteCharsPrefix(s: string, t: string, x: string, y: string)
    requires QuoteChars(s) + "\"" + x == QuoteChars(t) + "\"" + y
    ensures s == t && x == y
    decreases |s|
  {
    hide QuoteChar;
    var l, r := QuoteChars(s) + "\"" + x, QuoteChars(t) + "\"" + y;
    if s != "" { QuoteCharStart(s[0]); assert l[0] == QuoteChar(s[0])[0]; }
    if t != "" { QuoteCharStart(t[0]); assert r[0] == QuoteChar(t[0])[0]; }
    if s == "" {
      assert x == l[1..] && y == r[1..];
    } else {
      var x', y' := QuoteChars(s[1..]) + "\"" + x, QuoteChars(t[1..]) + "\"" + y;
      assert l == QuoteChar(s[0]) + x';
      assert r == QuoteChar(t[0]) + y';
      QuoteCharPrefix(s[0], t[0], x', y');
      QuoteCharsPrefix(s[1..], t[1..], x, y);
      assert s == [s[0]] + s[1..] && t == [t[0]] + t[1..];
    }
  }

  lemma QuotePrefix(s: string, t: string, x: string, y: string)
    requires Quote(s) + x == Quote(t) + y
    ensures s == t && x == y
  {
    var x', y' := QuoteChars(s) + "\"" + x, QuoteChars(t) + "\"" + y;
    assert Quote(s) + x == "\"" + x' && Quote(t) + y == "\"" + y';
    assert x' == ("\"" + x')[1..] && y' == ("\"" + y')[1..];
    QuoteCharsPrefix(s, t, x, y);
  }

  // ---------------------------------------------------------------- numbers end at a delimiter

  /** What may follow a value inside a printed text. */
  predicate Delimited(x: string) {
    x == "" || x[0] == ',' || x[0] == ']' || x[0] == '}'
  }

  lemma {:induction false} NumberPrefix(s: string, t: string, x: string, y: string)
    requires (forall c <- s :: NumberChar(c)) && (forall c <- t :: NumberChar(c))
    requires Delimited(x) && Delimited(y) && s + x == t + y
    ensures s == t && x == y
    decreases |s|
  {
    var l, r := s + x, t + y;
    assert s == "" ==> l == x;
    assert t == "" ==> r == y;
    if s != "" { assert l[0] == s[0] && NumberChar(s[0]); }
    if t != "" { assert r[0] == t[0] && NumberChar(t[0]); }
    if s == "" {
    } else {
      assert l[1..] == s[1..] + x && r[1..] == t[1..] + y;
      NumberPrefix(s[1..], t[1..], x, y);
      assert s == [s[0]] + s[1..] && t == [t[0]] + t[1..];
    }
  }

  // ---------------------------------------------------------------- printing is injective up to equivalence

  /** The first character tells the kinds of value apart. */
  function Kind(v: Json): char {
    match v
    case Null => 'n'
    case NonFinite => 'n'
    case Bool(b) => if b then 't' else 'f'
    case Number(_) => '0'
    case Str(_) => '"'
    case Arr(_) => '['
    case Obj(_) => '{'
  }

  lemma FirstCharTellsKind(le: KeyOrder, v: Json)
    requires Proper(v)
    ensures var t := StableStringify(le, v);
            t != "" && (if v.Number? then '0' <= t[0] <= '9' || t[0] == '-' else t[0] == Kind(v))
  {
  }

  lemma KindsDiffer(le: KeyOrder, a: Json, b: Json, x: string, y: string)
    requires Proper(a) && Proper(b)
    requires StableStringify(le, a) + x == StableStringify(le, b) + y
    ensures Kind(a) == Kind(b)
  {
    FirstCharTellsKind(le, a);
    FirstCharTellsKind(le, b);
    assert (StableStringify(le, a) + x)[0] == StableStringify(le, a)[0];
    assert (StableStringify(le, b) + y)[0] == StableStringify(le, b)[0];
  }

  /** What follows the first item of a list, up to and including the closing bracket. */
  function ItemsTail(le: KeyOrder, items: seq<Json>, h: nat, close: string): string
    requires items != [] && forall v <- items :: Height(v) < h
  {
    if |items| == 1 then close else "," + ItemsText(le, items[1..], h) + close
  }

  function FieldsTail(le: KeyOrder, fields: seq<Field>, h: nat, close: string): string
    requires fields != [] && forall f <- fields :: Height(f.value) < h
  {
    if |fields| == 1 then close else "," + FieldsText(le, fields[1..], h) + close
  }

  lemma Wrapped(open: string, inner: string, close: string, rest: string)
    ensures (open + inner + close) + rest == open + (inner + (close + rest))
  {
  }

  lemma Cancel(p: string, u: string, w: string)
    requires p + u == p + w
    ensures u == w
  {
    assert (p + u)[|p|..] == u && (p + w)[|p|..] == w;
  }

  lemma ItemsTextSplit(le: KeyOrder, items: seq<Json>, h: nat, close: string)
    requires items != [] && forall v <- items :: Height(v) < h
    ensures ItemsText(le, items, h) + close == StableStringify(le, items[0]) + ItemsTail(le, items, h, close)
  {
  }

  lemma FieldsTextSplit(le: KeyOrder, fields: seq<Field>, h: nat, close: string)
    requires fields != [] && forall f <- fields :: Height(f.value) < h
    ensures FieldsText(le, fields, h) + close ==
            Quote(fields[0].key) + (":" + (StableStringify(le, fields[0].value) + FieldsTail(le, fields, h, close)))
  {
    hide Quote;
    hide StableStringify;
    var f, tail := fields[0], FieldsTail(le, fields, h, close);
    FieldsTextHead(le, fields, h, close);
    Wrapped(Quote(f.key), ":", StableStringify(le, f.value), tail);
  }

  lemma FieldsTextHead(le: KeyOrder, fields: seq<Field>, h: nat, close: string)
    requires fields != [] && forall f <- fields :: Height(f.value) < h
    ensures FieldsText(le, fields, h) + close == FieldText(le, fields[0], h) + FieldsTail(le, fields, h, close)
  {
    hide FieldText;
  }

  /** Equal tails after one element: both lists end here, or both go on. */
  lemma SameItemsTail(le: KeyOrder, xs: seq<Json>, ys: seq<Json>, h: nat, k: nat, x: string, y: string)
    requires xs != [] && ys != []
    requires (forall v <- xs :: Height(v) < h) && (forall v <- ys :: Height(v) < k)
    requires ItemsTail(le, xs, h, "]" + x) == ItemsTail(le, ys, k, "]" + y)
    ensures |xs| == 1 <==> |ys| == 1
    ensures |xs| == 1 ==> x == y
    ensures |xs| > 1 ==> ItemsText(le, xs[1..], h) + ("]" + x) == ItemsText(le, ys[1..], k) + ("]" + y)
  {
    var l, r := ItemsTail(le, xs, h, "]" + x), ItemsTail(le, ys, k, "]" + y);
    assert l[0] == if |xs| == 1 then ']' else ',';
    assert r[0] == if |ys| == 1 then ']' else ',';
    if |xs| == 1 {
      assert l[1..] == x && r[1..] == y;
    } else {
      assert l[1..] == ItemsText(le, xs[1..], h) + ("]" + x);
      assert r[1..] == ItemsText(le, ys[1..], k) + ("]" + y);
    }
  }

  lemma SameFieldsTail(le: KeyOrder, fs: seq<Field>, gs: seq<Field>, h: nat, k: nat, x: string, y: string)
    requires fs != [] && gs != []
    requires (forall f <- fs :: Height(f.value) < h) && (forall g <- gs :: Height(g.value) < k)
    requires FieldsTail(le, fs, h, "}" + x) == FieldsTail(le, gs, k, "}" + y)
    ensures |fs| == 1 <==> |gs| == 1
    ensures |fs| == 1 ==> x == y
    ensures |fs| > 1 ==> FieldsText(le, fs[1..], h) + ("}" + x) == FieldsText(le, gs[1..], k) + ("}" + y)
  {
    FieldsTailStart(le, fs, h, x);
    FieldsTailStart(le, gs, k, y);
    if |fs| == 1 {
      Cancel("}", x, y);
    }
  }

  lemma FieldsTailStart(le: KeyOrder, fs: seq<Field>, h: nat, x: string)
    requires fs != [] && forall f <- fs :: Height(f.value) < h
    ensures var t := FieldsTail(le, fs, h, "}" + x);
            && t != "" && (t[0] == '}' <==> |fs| == 1)
            && (|fs| > 1 ==> t[1..] == FieldsText(le, fs[1..], h) + ("}" + x))
  {
    if |fs| > 1 {
      var rest := FieldsText(le, fs[1..], h);
      hide FieldsText;
      assert "," + rest + ("}" + x) == "," + (rest + ("}" + x));
    }
  }

  lemma ItemsTextStart(le: KeyOrder, items: seq<Json>, h: nat, close: string)
    requires (forall v <- items :: Height(v) < h) && (forall v <- items :: Proper(v))
    requires close != "" && close[0] == ']'
    ensures var t := ItemsText(le, items, h) + close; t != "" && (t[0] == ']' <==> items == [])
  {
    if items == [] {
      assert ItemsText(le, items, h) + close == close;
    } else {
      ItemsTextSplit(le, items, h, close);
      FirstCharTellsKind(le, items[0]);
      assert items[0] in items;
    }
  }

  lemma FieldsTextStart(le: KeyOrder, fields: seq<Field>, h: nat, close: string)
    requires forall f <- fields :: Height(f.value) < h
    requires close != "" && close[0] == '}'
    ensures var t := FieldsText(le, fields, h) + close; t != "" && (t[0] == '}' <==> fields == [])
  {
    if fields == [] {
      assert FieldsText(le, fields, h) + close == close;
    } else {
      FieldsTextSplit(le, fields, h, close);
    }
  }

  lemma {:induction false} ItemsPrefix(le: KeyOrder, xs: seq<Json>, ys: seq<Json>, h: nat, k: nat, x: string, y: string)
    requires (forall v <- xs :: Height(v) < h) && (forall v <- ys :: Height(v) < k)
    requires (forall v <- xs :: Proper(v)) && (forall v <- ys :: Proper(v))
    requires ItemsText(le, xs, h) + ("]" + x) == ItemsText(le, ys, k) + ("]" + y)
    ensures |xs| == |ys| && x == y && forall i :: 0 <= i < |xs| ==> Equivalent(xs[i], ys[i])
    decreases h, |xs|
  {
    ItemsTextStart(le, xs, h, "]" + x);
    ItemsTextStart(le, ys, k, "]" + y);
    if xs == [] {
      assert ItemsText(le, xs, h) + ("]" + x) == "]" + x && ItemsText(le, ys, k) + ("]" + y) == "]" + y;
      assert x == ("]" + x)[1..] && y == ("]" + y)[1..];
    } else {
      ItemsTextSplit(le, xs, h, "]" + x);
      ItemsTextSplit(le, ys, k, "]" + y);
      ValuePrefix(le, xs[0], ys[0], ItemsTail(le, xs, h, "]" + x), ItemsTail(le, ys, k, "]" + y));
      SameItemsTail(le, xs, ys, h, k, x, y);
      if |xs| > 1 {
        ItemsPrefix(le, xs[1..], ys[1..], h, k, x, y);
        forall i | 0 <= i < |xs| ensures Equivalent(xs[i], ys[i]) {
          if i > 0 { assert xs[i] == xs[1..][i - 1] && ys[i] == ys[1..][i - 1]; }
        }
      }
    }
  }

  lemma {:induction false} FieldsPrefix(le: KeyOrder, fs: seq<Field>, gs: seq<Field>, h: nat, k: nat, x: string, y: string)
    requires (forall f <- fs :: Height(f.value) < h) && (forall g <- gs :: Height(g.value) < k)
    requires (forall f <- fs :: Proper(f.value)) && (forall g <- gs :: Proper(g.value))
    requires FieldsText(le, fs, h) + ("}" + x) == FieldsText(le, gs, k) + ("}" + y)
    ensures |fs| == |gs| && x == y
    ensures forall i :: 0 <= i < |fs| ==> fs[i].key == gs[i].key && Equivalent(fs[i].value, gs[i].value)
    decreases h, |fs|
  {
    FieldsTextStart(le, fs, h, "}" + x);
    FieldsTextStart(le, gs, k, "}" + y);
    if fs == [] {
      assert FieldsText(le, fs, h) + ("}" + x) == "}" + x && FieldsText(le, gs, k) + ("}" + y) == "}" + y;
      assert x == ("}" + x)[1..] && y == ("}" + y)[1..];
    } else {
      var f, g := fs[0], gs[0];
      var x', y' := FieldsTail(le, fs, h, "}" + x), FieldsTail(le, gs, k, "}" + y);
      FieldsTextSplit(le, fs, h, "}" + x);
      FieldsTextSplit(le, gs, k, "}" + y);
      var u, w := StableStringify(le, f.value) + x', StableStringify(le, g.value) + y';
      QuotePrefix(f.key, g.key, ":" + u, ":" + w);
      assert u == (":" + u)[1..] && w == (":" + w)[1..];
      ValuePrefix(le, f.value, g.value, x', y');
      SameFieldsTail(le, fs, gs, h, k, x, y);
      if |fs| > 1 {
        FieldsPrefix(le, fs[1..], gs[1..], h, k, x, y);
        forall i | 0 <= i < |fs| ensures fs[i].key == gs[i].key && Equivalent(fs[i].value, gs[i].value) {
          if i > 0 { assert fs[i] == fs[1..][i - 1] && gs[i] == gs[1..][i - 1]; }
        }
      }
    }
  }

  /** A printed value tells what it is and where it ends, whatever delimiter follows. */
  lemma {:induction false} ValuePrefix(le: KeyOrder, a: Json, b: Json, x: string, y: string)
    requires Proper(a) && Proper(b) && Delimited(x) && Delimited(y)
    requires StableStringify(le, a) + x == StableStringify(le, b) + y
    ensures Equivalent(a, b) && x == y
    decreases Height(a), Width(a)
  {
    KindsDiffer(le, a, b, x, y);
    match a
    case Number(t) =>
      NumberPrefix(t, b.text, x, y);
    case Str(s) =>
      QuotePrefix(s, b.s, x, y);
    case Arr(items) =>
      BracketsOff(le, a, b, x, y);
      ItemsPrefix(le, items, b.items, Height(a), Height(b), x, y);
    case Obj(fields) =>
      BracesOff(le, a, b, x, y);
      var fs, gs := SortFields(le, fields), SortFields(le, b.fields);
      FieldsPrefix(le, fs, gs, Height(a), Height(b), x, y);
      SortedMatchIsEquivalent(le, a, b, fs, gs);
    case _ =>
      SameLeaf(le, a, b, x, y);
  }

  lemma SameLeaf(le: KeyOrder, a: Json, b: Json, x: string, y: string)
    requires a.Null? || a.NonFinite? || a.Bool?
    requires Kind(a) == Kind(b) && StableStringify(le, a) + x == StableStringify(le, b) + y
    ensures Equivalent(a, b) && x == y
  {
    var n := |StableStringify(le, a)|;
    assert StableStringify(le, a) == StableStringify(le, b);
    assert x == (StableStringify(le, a) + x)[n..] && y == (StableStringify(le, b) + y)[n..];
  }

  lemma BracketsOff(le: KeyOrder, a: Json, b: Json, x: string, y: string)
    requires a.Arr? && b.Arr? && StableStringify(le, a) + x == StableStringify(le, b) + y
    ensures ItemsText(le, a.items, Height(a)) + ("]" + x) == ItemsText(le, b.items, Height(b)) + ("]" + y)
  {
    var l, r := StableStringify(le, a) + x, StableStringify(le, b) + y;
    assert l == "[" + (ItemsText(le, a.items, Height(a)) + ("]" + x));
    assert r == "[" + (ItemsText(le, b.items, Height(b)) + ("]" + y));
    assert l[1..] == r[1..];
  }

  lemma BracesOff(le: KeyOrder, a: Json, b: Json, x: string, y: string)
    requires a.Obj? && b.Obj? && StableStringify(le, a) + x == StableStringify(le, b) + y
    ensures FieldsText(le, SortFields(le, a.fields), Height(a)) + ("}" + x) ==
            FieldsText(le, SortFields(le, b.fields), Height(b)) + ("}" + y)
  {
    var u := FieldsText(le, SortFields(le, a.fields), Height(a));
    var w := FieldsText(le, SortFields(le, b.fields), Height(b));
    assert StableStringify(le, a) == "{" + u + "}" && StableStringify(le, b) == "{" + w + "}";
    hide *;
    Wrapped("{", u, "}", x);
    Wrapped("{", w, "}", y);
    Cancel("{", u + ("}" + x), w + ("}" + y));
  }

  lemma SortedMatchIsEquivalent(le: KeyOrder, a: Json, b: Json, fs: seq<Field>, gs: seq<Field>)
    requires a.Obj? && b.Obj? && fs == SortFields(le, a.fields) && gs == SortFields(le, b.fields)
    requires |fs| == |gs|
    requires forall i :: 0 <= i < |fs| ==> fs[i].key == gs[i].key && Equivalent(fs[i].value, gs[i].value)
    ensures Equivalent(a, b)
  {
    forall f <- a.fields ensures exists g <- b.fields :: f.key == g.key && Equivalent(f.value, g.value) {
      assert f in fs;
      var i :| 0 <= i < |fs| && fs[i] == f;
      assert gs[i] in gs && gs[i] in b.fields;
    }
  }

  // ---------------------------------------------------------------- equivalent values print the same

  ghost predicate TotalPreorder(le: KeyOrder) {
    && (forall a, b :: le(a, b) || le(b, a))
    && (forall a, b, c :: le(a, b) && le(b, c) ==> le(a, c))
  }

  /** The comparator never ties two different keys. */
  ghost predicate Antisymmetric(le: KeyOrder) {
    forall a, b :: le(a, b) && le(b, a) ==> a == b
  }

  predicate InKeyOrder(le: KeyOrder, s: seq<Field>) {
    forall i, j :: 0 <= i < j < |s| ==> le(s[i].key, s[j].key)
  }

  lemma {:induction false} InsertOrders(le: KeyOrder, f: Field, s: seq<Field>)
    requires TotalPreorder(le) && InKeyOrder(le, s)
    ensures InKeyOrder(le, Insert(le, f, s))
  {
    var r := Insert(le, f, s);
    if s != [] && !le(f.key, s[0].key) {
      InsertOrders(le, f, s[1..]);
      assert le(s[0].key, f.key);
      forall i, j | 0 <= i < j < |r| ensures le(r[i].key, r[j].key) {
        assert r[j] == Insert(le, f, s[1..])[j - 1];
        assert r[j] in Insert(le, f, s[1..]);
        if i == 0 && r[j] != f {
          assert r[j] in s[1..];
          var n :| 0 <= n < |s[1..]| && s[1..][n] == r[j];
          assert s[n + 1] == r[j];
        }
      }
    }
  }

  lemma {:induction false} SortOrders(le: KeyOrder, s: seq<Field>)
    requires TotalPreorder(le)
    ensures InKeyOrder(le, SortFields(le, s))
  {
    if s != [] {
      SortOrders(le, s[1..]);
      InsertOrders(le, s[0], SortFields(le, s[1..]));
    }
  }

  lemma {:induction false} InsertKeepsDistinct(le: KeyOrder, f: Field, s: seq<Field>)
    requires DistinctKeys(s) && forall g <- s :: g.key != f.key
    ensures DistinctKeys(Insert(le, f, s))
  {
    if s != [] && !le(f.key, s[0].key) {
      var rest := Insert(le, f, s[1..]);
      assert s == [s[0]] + s[1..];
      InsertKeepsDistinct(le, f, s[1..]);
      forall j | 0 <= j < |rest| ensures rest[j].key != s[0].key {
        assert rest[j] in rest;
        if rest[j] != f {
          var n :| 0 <= n < |s[1..]| && s[1..][n] == rest[j];
          assert s[n + 1] == rest[j];
        }
      }
    }
  }

  lemma {:induction false} SortKeepsDistinct(le: KeyOrder, s: seq<Field>)
    requires DistinctKeys(s)
    ensures DistinctKeys(SortFields(le, s))
  {
    if s != [] {
      SortKeepsDistinct(le, s[1..]);
      forall g <- SortFields(le, s[1..]) ensures g.key != s[0].key {
        assert g in s[1..];
        var n :| 0 <= n < |s[1..]| && s[1..][n] == g;
        assert s[n + 1] == g;
      }
      InsertKeepsDistinct(le, s[0], SortFields(le, s[1..]));
    }
  }

  /** Each field has a partner with the same key and an equivalent value. */
  predicate Matched(fs: seq<Field>, gs: seq<Field>) {
    forall f <- fs :: exists g <- gs :: f.key == g.key && Equivalent(f.value, g.value)
  }

  lemma TailMatched(fs: seq<Field>, gs: seq<Field>)
    requires fs != [] && gs != [] && fs[0].key == gs[0].key
    requires DistinctKeys(fs) && Matched(fs, gs)
    ensures Matched(fs[1..], gs[1..])
  {
    hide Equivalent;
    forall f <- fs[1..] ensures exists g <- gs[1..] :: f.key == g.key && Equivalent(f.value, g.value) {
      var n :| 0 <= n < |fs[1..]| && fs[1..][n] == f;
      assert fs[n + 1] == f;
      var g :| g in gs && f.key == g.key && Equivalent(f.value, g.value);
      assert g != gs[0];
      assert gs == [gs[0]] + gs[1..];
    }
  }

  /** Sorted by a total order, matched lists with distinct keys line up position by position. */
  lemma {:induction false} SortedListsLineUp(le: KeyOrder, fs: seq<Field>, gs: seq<Field>)
    requires TotalPreorder(le) && Antisymmetric(le)
    requires InKeyOrder(le, fs) && InKeyOrder(le, gs) && DistinctKeys(fs) && DistinctKeys(gs)
    requires |fs| == |gs| && Matched(fs, gs)
    ensures forall i :: 0 <= i < |fs| ==> fs[i].key == gs[i].key && Equivalent(fs[i].value, gs[i].value)
    decreases |fs|
  {
    if fs != [] {
      HeadsLineUp(le, fs, gs);
      var g :| g in gs && fs[0].key == g.key && Equivalent(fs[0].value, g.value);
      var n :| 0 <= n < |gs| && gs[n] == g;
      assert n == 0;
      TailMatched(fs, gs);
      SortedListsLineUp(le, fs[1..], gs[1..]);
      forall i | 0 <= i < |fs| ensures fs[i].key == gs[i].key && Equivalent(fs[i].value, gs[i].value) {
        if i > 0 { assert fs[i] == fs[1..][i - 1] && gs[i] == gs[1..][i - 1]; }
      }
    }
  }

  ghost function KeySet(fs: seq<Field>): set<string> { set f <- fs :: f.key }

  lemma {:induction false} KeyCount(fs: seq<Field>)
    requires DistinctKeys(fs)
    ensures |KeySet(fs)| == |fs|
  {
    if fs != [] {
      KeyCount(fs[1..]);
      assert fs == [fs[0]] + fs[1..];
      assert KeySet(fs) == {fs[0].key} + KeySet(fs[1..]);
      forall f <- fs[1..] ensures f.key != fs[0].key {
        var n :| 0 <= n < |fs[1..]| && fs[1..][n] == f;
        assert fs[n + 1] == f;
      }
    }
  }

  lemma {:induction false} SubsetOfSameSize<T>(a: set<T>, b: set<T>)
    requires a <= b && |a| == |b|
    ensures a == b
  {
    if a != {} {
      var x :| x in a;
      SubsetOfSameSize(a - {x}, b - {x});
      assert a == (a - {x}) + {x} && b == (b - {x}) + {x};
    }
  }

  lemma HeadsLineUp(le: KeyOrder, fs: seq<Field>, gs: seq<Field>)
    requires TotalPreorder(le) && Antisymmetric(le)
    requires InKeyOrder(le, fs) && InKeyOrder(le, gs) && DistinctKeys(fs) && DistinctKeys(gs)
    requires |fs| == |gs| && fs != [] && Matched(fs, gs)
    ensures fs[0].key == gs[0].key
  {
    KeyCount(fs);
    KeyCount(gs);
    forall k | k in KeySet(fs) ensures k in KeySet(gs) {
      var f :| f in fs && f.key == k;
    }
    SubsetOfSameSize(KeySet(fs), KeySet(gs));
    assert fs[0].key in KeySet(gs) && gs[0].key in KeySet(fs) by {
      assert fs[0].key in KeySet(fs) && gs[0].key in KeySet(gs);
    }
    var i :| 0 <= i < |gs| && gs[i].key == fs[0].key;
    var j :| 0 <= j < |fs| && fs[j].key == gs[0].key;
    assert le(gs[0].key, gs[i].key);
    assert le(fs[0].key, fs[j].key);
  }

  lemma SortedFieldsMatch(le: KeyOrder, a: Json, b: Json)
    requires a.Obj? && b.Obj? && Equivalent(a, b)
    ensures Matched(SortFields(le, a.fields), SortFields(le, b.fields))
  {
    var fs, gs := SortFields(le, a.fields), SortFields(le, b.fields);
    forall f <- fs ensures exists g <- gs :: f.key == g.key && Equivalent(f.value, g.value) {
      assert f in a.fields;
      var g :| g in b.fields && f.key == g.key && Equivalent(f.value, g.value);
      assert g in gs;
    }
  }

  /** Equivalent values print the same, wherever their keys stand. */
  lemma {:induction false} EquivalentPrintSame(le: KeyOrder, a: Json, b: Json)
    requires TotalPreorder(le) && Antisymmetric(le)
    requires Proper(a) && Proper(b) && Equivalent(a, b)
    ensures StableStringify(le, a) == StableStringify(le, b)
    decreases Height(a), Width(a)
  {
    match a
    case Arr(items) =>
      ItemsPrintSame(le, items, b.items, Height(a), Height(b));
    case Obj(fields) =>
      var fs, gs := SortFields(le, fields), SortFields(le, b.fields);
      SortOrders(le, fields);
      SortOrders(le, b.fields);
      SortKeepsDistinct(le, fields);
      SortKeepsDistinct(le, b.fields);
      SortedFieldsMatch(le, a, b);
      SortedListsLineUp(le, fs, gs);
      FieldsPrintSame(le, fs, gs, Height(a), Height(b));
    case _ =>
  }

  lemma {:induction false} ItemsPrintSame(le: KeyOrder, xs: seq<Json>, ys: seq<Json>, h: nat, k: nat)
    requires TotalPreorder(le) && Antisymmetric(le)
    requires (forall v <- xs :: Height(v) < h) && (forall v <- ys :: Height(v) < k)
    requires (forall v <- xs :: Proper(v)) && (forall v <- ys :: Proper(v))
    requires |xs| == |ys| && forall i :: 0 <= i < |xs| ==> Equivalent(xs[i], ys[i])
    ensures ItemsText(le, xs, h) == ItemsText(le, ys, k)
    decreases h, |xs|
  {
    if xs != [] {
      EquivalentPrintSame(le, xs[0], ys[0]);
      ItemsPrintSame(le, xs[1..], ys[1..], h, k);
    }
  }

  lemma {:induction false} FieldsPrintSame(le: KeyOrder, fs: seq<Field>, gs: seq<Field>, h: nat, k: nat)
    requires TotalPreorder(le) && Antisymmetric(le)
    requires (forall f <- fs :: Height(f.value) < h) && (forall g <- gs :: Height(g.value) < k)
    requires (forall f <- fs :: Proper(f.value)) && (forall g <- gs :: Proper(g.value))
    requires |fs| == |gs|
    requires forall i :: 0 <= i < |fs| ==> fs[i].key == gs[i].key && Equivalent(fs[i].value, gs[i].value)
    ensures FieldsText(le, fs, h) == FieldsText(le, gs, k)
    decreases h, |fs|
  {
    if fs != [] {
      EquivalentPrintSame(le, fs[0].value, gs[0].value);
      FieldsPrintSame(le, fs[1..], gs[1..], h, k);
    }
  }

  /** Equal texts mean equal values, for any comparator at all. */
  lemma SamePrintIsEquivalent(le: KeyOrder, a: Json, b: Json)
    requires Proper(a) && Proper(b) && StableStringify(le, a) == StableStringify(le, b)
    ensures Equivalent(a, b)
  {
    var t := StableStringify(le, a);
    assert t + "" == StableStringify(le, b) + "";
    ValuePrefix(le, a, b, "", "");
  }

  /** The printed text is a complete invariant of the value up to key order. */
  lemma PrintsSameIffEquivalent(le: KeyOrder, a: Json, b: Json)
    requires TotalPreorder(le) && Antisymmetric(le) && Proper(a) && Proper(b)
    ensures StableStringify(le, a) == StableStringify(le, b) <==> Equivalent(a, b)
  {
    if StableStringify(le, a) == StableStringify(le, b) {
      SamePrintIsEquivalent(le, a, b);
    }
    if Equivalent(a, b) {
      EquivalentPrintSame(le, a, b);
    }
  }

  /** A comparator that ties two different keys lets the order of the keys show in the text. */
  lemma TieShowsKeyOrder(le: KeyOrder, k: string, l: string)
    requires k != l && le(k, l) && le(l, k)
    ensures var a, b := Obj([Field(k, Null), Field(l, Null)]), Obj([Field(l, Null), Field(k, Null)]);
            && Proper(a) && Proper(b) && Equivalent(a, b)
            && StableStringify(le, a) != StableStringify(le, b)
  {
    var f, g := Field(k, Null), Field(l, Null);
    var a, b := Obj([f, g]), Obj([g, f]);
    assert a.fields[0] == f && a.fields[1] == g && b.fields[0] == g && b.fields[1] == f;
    assert f in b.fields && g in b.fields;
    assert a.fields[1..] == [g] && b.fields[1..] == [f] && [f][1..] == [] && [g][1..] == [];
    assert SortFields(le, a.fields) == [f, g] && SortFields(le, b.fields) == [g, f];
    if StableStringify(le, a) == StableStringify(le, b) {
      BracesOff(le, a, b, "", "");
      FieldsPrefix(le, [f, g], [g, f], Height(a), Height(b), "", "");
    }
  }

  // ---------------------------------------------------------------- request fingerprints

  function WithoutKey(fields: seq<Field>, key: string): (r: seq<Field>)
    ensures forall f :: f in r <==> f in fields && f.key != key
  {
    if fields == [] then []
    else
      assert fields == [fields[0]] + fields[1..];
      (if fields[0].key == key then [] else [fields[0]]) + WithoutKey(fields[1..], key)
  }

  /** `buildRequestFingerprint`: the hash of the printed request without its idempotency key. */
  function Fingerprint(hash: string -> string, le: KeyOrder, request: seq<Field>): string {
    hash(StableStringify(le, Obj(WithoutKey(request, "idempotencyKey"))))
  }

  lemma {:induction false} WithoutKeyIsProper(fields: seq<Field>, key: string)
    requires DistinctKeys(fields)
    ensures DistinctKeys(WithoutKey(fields, key))
  {
    if fields != [] {
      assert fields == [fields[0]] + fields[1..];
      WithoutKeyIsProper(fields[1..], key);
      var rest := WithoutKey(fields[1..], key);
      forall j | 0 <= j < |rest| ensures rest[j].key != fields[0].key {
        assert rest[j] in rest && rest[j] in fields[1..];
        var n :| 0 <= n < |fields[1..]| && fields[1..][n] == rest[j];
        assert fields[n + 1] == rest[j];
      }
    }
  }

  /** Two different texts with the same hash. */
  predicate Collide(hash: string -> string, s: string, t: string) { s != t && hash(s) == hash(t) }

  /**
   Equal fingerprints mean the same request up to key order and idempotency key, or that the two printed
   requests collide; and conversely.
   */
  lemma SameFingerprintIffSameRequest(hash: string -> string, le: KeyOrder, a: seq<Field>, b: seq<Field>)
    requires TotalPreorder(le) && Antisymmetric(le) && Proper(Obj(a)) && Proper(Obj(b))
    ensures var u, v := Obj(WithoutKey(a, "idempotencyKey")), Obj(WithoutKey(b, "idempotencyKey"));
            Fingerprint(hash, le, a) == Fingerprint(hash, le, b)
            <==> Equivalent(u, v) || Collide(hash, StableStringify(le, u), StableStringify(le, v))
  {
    WithoutKeyIsProper(a, "idempotencyKey");
    WithoutKeyIsProper(b, "idempotencyKey");
    var u, v := Obj(WithoutKey(a, "idempotencyKey")), Obj(WithoutKey(b, "idempotencyKey"));
    assert Proper(u) && Proper(v);
    hide Equivalent, StableStringify, Proper;
    PrintsSameIffEquivalent(le, u, v);
  }
}
