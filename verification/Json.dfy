/** `json.dumps` with its default separators and ASCII escaping: a printer, and why it can be read back. */
module Json {
  import opened Wrappers
  import opened Text

  datatype Json =
    | Null
    | Bool(b: bool)
    | Num(n: nat)
    | Str(s: string)
    | Arr(items: seq<Json>)
    | Obj(fields: seq<Field>)
  datatype Field = Field(key: string, value: Json)

  function HexDigit(d: int): char
    requires 0 <= d < 16
  {
    if d < 10 then (48 + d) as char else (87 + d) as char
  }

  function Hex4(n: int): (h: string)
    requires 0 <= n < 0x10000
    ensures |h| == 4
  {
    [HexDigit(n / 0x1000), HexDigit(n / 0x100 % 0x10), HexDigit(n / 0x10 % 0x10), HexDigit(n % 0x10)]
  }

  function UnicodeEscape(c: char): string {
    var n := c as int;
    if n < 0x10000 then "\\u" + Hex4(n)
    else "\\u" + Hex4(0xD800 + (n - 0x10000) / 0x400) + "\\u" + Hex4(0xDC00 + (n - 0x10000) % 0x400)
  }

  function Escape(c: char): (e: string)
    ensures 1 <= |e| <= 12
  {
    if c == '"' then "\\\""
    else if c == '\\' then "\\\\"
    else if c == '\n' then "\\n"
    else if c == '\r' then "\\r"
    else if c == '\t' then "\\t"
    else if c == '\U{08}' then "\\b"
    else if c == '\U{0C}' then "\\f"
    else if ' ' <= c <= '~' then [c]
    else UnicodeEscape(c)
  }

  function EscapeAll(s: string): string {
    if s == "" then "" else Escape(s[0]) + EscapeAll(s[1..])
  }

  function Quote(s: string): string {
    "\"" + EscapeAll(s) + "\""
  }

  function Digit(d: int): char
    requires 0 <= d < 10
  {
    (48 + d) as char
  }

  function Decimal(n: nat): (s: string)
    ensures s != ""
  {
    if n < 10 then [Digit(n)] else Decimal(n / 10) + [Digit(n % 10)]
  }

  function Print(j: Json): string
    decreases j, 0
  {
    match j
    case Null => "null"
    case Bool(b) => if b then "true" else "false"
    case Num(n) => Decimal(n)
    case Str(s) => Quote(s)
    case Arr(items) => "[" + PrintItems(items) + "]"
    case Obj(fields) => "{" + PrintFields(fields) + "}"
  }

  function PrintItems(items: seq<Json>): string
    decreases items, 1
  {
    if items == [] then ""
    else if |items| == 1 then Print(items[0])
    else Print(items[0]) + ", " + PrintItems(items[1..])
  }

  function PrintFields(fields: seq<Field>): string
    decreases fields, 1
  {
    if fields == [] then ""
    else if |fields| == 1 then Quote(fields[0].key) + ": " + Print(fields[0].value)
    else Quote(fields[0].key) + ": " + Print(fields[0].value) + ", " + PrintFields(fields[1..])
  }

  // ------------------------------------------------- printed text is plain ASCII on one line

  predicate Visible(s: string) {
    forall k :: 0 <= k < |s| ==> ' ' <= s[k] <= '~'
  }

  lemma Hex4Visible(n: int)
    requires 0 <= n < 0x10000
    ensures Visible(Hex4(n))
  {
  }

  lemma EscapeVisible(c: char)
    ensures Visible(Escape(c))
  {
    EscapeShape(c);
    if IsUnicode(c) {
      var n := c as int;
      if n < 0x10000 {
        Hex4Visible(n);
      } else {
        Hex4Visible(0xD800 + (n - 0x10000) / 0x400);
        Hex4Visible(0xDC00 + (n - 0x10000) % 0x400);
      }
    }
  }

  lemma {:induction false} EscapeAllVisible(s: string)
    ensures Visible(EscapeAll(s)) && |EscapeAll(s)| <= 12 * |s|
  {
    if s != "" {
      EscapeVisible(s[0]);
      EscapeAllVisible(s[1..]);
    }
  }

  lemma {:induction false} DecimalVisible(n: nat)
    ensures forall k :: 0 <= k < |Decimal(n)| ==> '0' <= Decimal(n)[k] <= '9'
  {
    if n >= 10 { DecimalVisible(n / 10); }
  }

  lemma {:induction false} PrintVisible(j: Json)
    ensures Visible(Print(j))
    decreases j, 0
  {
    match j
    case Null =>
    case Bool(_) =>
    case Num(n) => DecimalVisible(n);
    case Str(s) => EscapeAllVisible(s);
    case Arr(items) => ItemsVisible(items);
    case Obj(fields) => FieldsVisible(fields);
  }

  lemma {:induction false} ItemsVisible(items: seq<Json>)
    ensures Visible(PrintItems(items))
    decreases items, 1
  {
    if items != [] {
      PrintVisible(items[0]);
      if |items| > 1 { ItemsVisible(items[1..]); }
    }
  }

  lemma {:induction false} FieldsVisible(fields: seq<Field>)
    ensures Visible(PrintFields(fields))
    decreases fields, 1
  {
    if fields != [] {
      PrintVisible(fields[0].value);
      if |fields| > 1 { FieldsVisible(fields[1..]); }
      FieldVisible(fields);
    }
  }

  lemma FieldVisible(fields: seq<Field>)
    requires fields != [] && Visible(Print(fields[0].value)) && (|fields| > 1 ==> Visible(PrintFields(fields[1..])))
    ensures Visible(PrintFields(fields))
  {
    QuoteVisible(fields[0].key);
    PairVisible(Quote(fields[0].key), Print(fields[0].value));
    if |fields| > 1 { PairsVisible(Quote(fields[0].key) + ": " + Print(fields[0].value), PrintFields(fields[1..])); }
  }

  lemma QuoteVisible(s: string)
    ensures Visible(Quote(s))
  {
    EscapeAllVisible(s);
  }

  lemma PairVisible(name: string, value: string)
    requires Visible(name) && Visible(value)
    ensures Visible(name + ": " + value)
  {
  }

  lemma PairsVisible(pair: string, rest: string)
    requires Visible(pair) && Visible(rest)
    ensures Visible(pair + ", " + rest)
  {
  }

  /** A printed object is one non-blank line. */
  lemma ObjectIsOneLine(fields: seq<Field>)
    ensures BreakFree(Print(Obj(fields))) && !Blank(Print(Obj(fields))) && Print(Obj(fields))[0] == '{'
  {
    PrintVisible(Obj(fields));
    assert !IsSpace(Print(Obj(fields))[0]);
  }

  // ------------------------------------------------- no printed value is the start of another

  lemma HexDigitInjective(a: int, b: int)
    requires 0 <= a < 16 && 0 <= b < 16 && HexDigit(a) == HexDigit(b)
    ensures a == b
  {
  }

  lemma Hex4Injective(n: int, m: int)
    requires 0 <= n < 0x10000 && 0 <= m < 0x10000 && Hex4(n) == Hex4(m)
    ensures n == m
  {
    assert Hex4(n)[0] == Hex4(m)[0] && Hex4(n)[1] == Hex4(m)[1] && Hex4(n)[2] == Hex4(m)[2] && Hex4(n)[3] == Hex4(m)[3];
    HexDigitInjective(n / 0x1000, m / 0x1000);
    HexDigitInjective(n / 0x100 % 0x10, m / 0x100 % 0x10);
    HexDigitInjective(n / 0x10 % 0x10, m / 0x10 % 0x10);
    HexDigitInjective(n % 0x10, m % 0x10);
    HexValue(n);
    HexValue(m);
  }

  lemma HexValue(n: int)
    requires 0 <= n < 0x10000
    ensures n == n / 0x1000 * 0x1000 + n / 0x100 % 0x10 * 0x100 + n / 0x10 % 0x10 * 0x10 + n % 0x10
  {
    assert n == n / 0x10 * 0x10 + n % 0x10;
    assert n / 0x10 == n / 0x100 * 0x10 + n / 0x10 % 0x10;
    assert n / 0x100 == n / 0x1000 * 0x10 + n / 0x100 % 0x10;
  }

  lemma SamePrefix(a: string, b: string, x: string, y: string)
    requires a + x == b + y && |a| == |b|
    ensures a == b && x == y
  {
    assert (a + x)[..|a|] == a && (b + y)[..|b|] == b;
    assert (a + x)[|a|..] == x && (b + y)[|b|..] == y;
  }

  lemma HexPrefixFree(n: int, m: int, x: string, y: string)
    requires 0 <= n < 0x10000 && 0 <= m < 0x10000 && "\\u" + Hex4(n) + x == "\\u" + Hex4(m) + y
    ensures n == m && x == y
  {
    SamePrefix("\\u" + Hex4(n), "\\u" + Hex4(m), x, y);
    SamePrefix("\\u", "\\u", Hex4(n), Hex4(m));
    Hex4Injective(n, m);
  }

  function HighHalf(c: char): int {
    var n := c as int;
    if n < 0x10000 then n else 0xD800 + (n - 0x10000) / 0x400
  }

  function LowHalf(c: char): string {
    var n := c as int;
    if n < 0x10000 then "" else "\\u" + Hex4(0xDC00 + (n - 0x10000) % 0x400)
  }

  lemma UnicodeHalves(c: char, x: string)
    ensures UnicodeEscape(c) + x == "\\u" + Hex4(HighHalf(c)) + (LowHalf(c) + x)
  {
  }

  lemma UnicodeEscapePrefixFree(c: char, d: char, x: string, y: string)
    requires UnicodeEscape(c) + x == UnicodeEscape(d) + y
    ensures c == d && x == y
  {
    UnicodeHalves(c, x);
    UnicodeHalves(d, y);
    HexPrefixFree(HighHalf(c), HighHalf(d), LowHalf(c) + x, LowHalf(d) + y);
    var n, m := c as int, d as int;
    if n >= 0x10000 {
      HexPrefixFree(0xDC00 + (n - 0x10000) % 0x400, 0xDC00 + (m - 0x10000) % 0x400, x, y);
    } else {
      assert LowHalf(c) + x == x && LowHalf(d) + y == y;
    }
  }

  /** The three shapes of an escape, told apart by their first two characters. */
  predicate IsUnicode(c: char) {
    c !in {'"', '\\', '\n', '\r', '\t', '\U{08}', '\U{0C}'} && !(' ' <= c <= '~')
  }

  predicate IsRaw(c: char) {
    c !in {'"', '\\'} && ' ' <= c <= '~'
  }

  lemma EscapeShape(c: char)
    ensures IsRaw(c) ==> Escape(c) == [c]
    ensures IsUnicode(c) ==> Escape(c) == UnicodeEscape(c) && Escape(c)[..2] == "\\u"
    ensures !IsRaw(c) && !IsUnicode(c) ==> |Escape(c)| == 2 && Escape(c)[0] == '\\' && Escape(c)[1] in "\"\\nrtbf"
    ensures !IsRaw(c) ==> Escape(c)[0] == '\\'
  {
  }

  lemma EscapePrefixFree(c: char, d: char, x: string, y: string)
    requires Escape(c) + x == Escape(d) + y
    ensures c == d && x == y
  {
    EscapeShape(c);
    EscapeShape(d);
    var p, q := Escape(c) + x, Escape(d) + y;
    assert p[0] == Escape(c)[0] && q[0] == Escape(d)[0];
    if IsRaw(c) || IsRaw(d) {
      SamePrefix(Escape(c), Escape(d), x, y);
    } else {
      assert p[1] == Escape(c)[1] && q[1] == Escape(d)[1];
      assert IsUnicode(c) ==> Escape(c)[..2][1] == 'u';
      assert IsUnicode(d) ==> Escape(d)[..2][1] == 'u';
      if IsUnicode(c) {
        UnicodeEscapePrefixFree(c, d, x, y);
      } else {
        SamePrefix(Escape(c), Escape(d), x, y);
        ShortEscapeInjective(c, d);
      }
    }
  }

  lemma ShortEscapeInjective(c: char, d: char)
    requires !IsRaw(c) && !IsUnicode(c) && !IsRaw(d) && !IsUnicode(d) && Escape(c) == Escape(d)
    ensures c == d
  {
    assert Escape(c)[1] == Escape(d)[1];
  }

  /** A quoted string past its opening quote, and what follows. */
  function Body(s: string, x: string): (r: string)
    ensures r != ""
  {
    EscapeAll(s) + ("\"" + x)
  }

  lemma QuoteBody(s: string, x: string)
    ensures Quote(s) + x == "\"" + Body(s, x)
  {
  }

  lemma BodyStep(s: string, x: string)
    ensures Body(s, x) == if s == "" then "\"" + x else Escape(s[0]) + Body(s[1..], x)
    ensures Body(s, x)[0] == '"' <==> s == ""
  {
    if s != "" {
      EscapeShape(s[0]);
      var rest := EscapeAll(s[1..]);
      assert Escape(s[0]) + rest + ("\"" + x) == Escape(s[0]) + (rest + ("\"" + x));
    }
  }

  lemma {:induction false} BodyPrefixFree(s: string, t: string, x: string, y: string)
    requires Body(s, x) == Body(t, y)
    ensures s == t && x == y
  {
    BodyStep(s, x);
    BodyStep(t, y);
    if s == "" {
      SamePrefix("\"", "\"", x, y);
    } else {
      EscapePrefixFree(s[0], t[0], Body(s[1..], x), Body(t[1..], y));
      BodyPrefixFree(s[1..], t[1..], x, y);
      assert s == [s[0]] + s[1..] && t == [t[0]] + t[1..];
    }
  }

  lemma QuotePrefixFree(s: string, t: string, x: string, y: string)
    requires Quote(s) + x == Quote(t) + y
    ensures s == t && x == y
  {
    QuoteBody(s, x);
    QuoteBody(t, y);
    SamePrefix("\"", "\"", Body(s, x), Body(t, y));
    BodyPrefixFree(s, t, x, y);
  }

  /** What may follow a value: nothing, or punctuation. */
  predicate Ends(x: string) {
    x == "" || x[0] in {',', ']', '}'}
  }

  function DigitRun(s: string): nat {
    if s == "" || !('0' <= s[0] <= '9') then 0 else 1 + DigitRun(s[1..])
  }

  lemma {:induction false} DigitRunOf(d: string, x: string)
    requires forall k :: 0 <= k < |d| ==> '0' <= d[k] <= '9'
    requires Ends(x)
    ensures DigitRun(d + x) == |d|
  {
    if d == "" {
      assert d + x == x;
    } else {
      assert (d + x)[1..] == d[1..] + x;
      DigitRunOf(d[1..], x);
    }
  }

  lemma {:induction false} DecimalInjective(n: nat, m: nat)
    requires Decimal(n) == Decimal(m)
    ensures n == m
  {
    var s := Decimal(n);
    assert n >= 10 ==> |Decimal(n / 10)| >= 1;
    assert m >= 10 ==> |Decimal(m / 10)| >= 1;
    assert s[|s| - 1] == Digit(n % 10) == Digit(m % 10);
    DigitInjective(n % 10, m % 10);
    if n >= 10 {
      assert s[..|s| - 1] == Decimal(n / 10) == Decimal(m / 10);
      DecimalInjective(n / 10, m / 10);
    }
  }

  lemma DigitInjective(a: int, b: int)
    requires 0 <= a < 10 && 0 <= b < 10 && Digit(a) == Digit(b)
    ensures a == b
  {
  }

  function Kind(c: char): nat {
    if c == 'n' then 0 else if c == 't' then 1 else if c == 'f' then 2 else if c == '"' then 3
    else if c == '[' then 4 else if c == '{' then 5 else if '0' <= c <= '9' then 6 else 7
  }

  function KindOf(j: Json): nat {
    match j
    case Null => 0
    case Bool(b) => if b then 1 else 2
    case Str(_) => 3
    case Arr(_) => 4
    case Obj(_) => 5
    case Num(_) => 6
  }

  lemma FirstCharTellsKind(j: Json)
    ensures Print(j) != "" && Kind(Print(j)[0]) == KindOf(j)
  {
    match j
    case Null =>
    case Bool(_) =>
    case Num(n) => DecimalVisible(n);
    case Str(_) =>
    case Arr(_) =>
    case Obj(_) =>
  }

  lemma NumberPrefixFree(n: nat, m: nat, x: string, y: string)
    requires Decimal(n) + x == Decimal(m) + y && Ends(x) && Ends(y)
    ensures n == m && x == y
  {
    DecimalVisible(n);
    DecimalVisible(m);
    DigitRunOf(Decimal(n), x);
    DigitRunOf(Decimal(m), y);
    SamePrefix(Decimal(n), Decimal(m), x, y);
    DecimalInjective(n, m);
  }

  /** The rest of an array past its bracket, and what follows. */
  function ArrayTail(items: seq<Json>, x: string): (r: string)
    ensures r != ""
  {
    PrintItems(items) + ("]" + x)
  }

  function AfterItem(items: seq<Json>, x: string): string
    requires items != []
  {
    if |items| == 1 then "]" + x else ", " + ArrayTail(items[1..], x)
  }

  function ObjectTail(fields: seq<Field>, x: string): (r: string)
    ensures r != ""
  {
    PrintFields(fields) + ("}" + x)
  }

  function AfterField(fields: seq<Field>, x: string): string
    requires fields != []
  {
    if |fields| == 1 then "}" + x else ", " + ObjectTail(fields[1..], x)
  }

  lemma ArrayTailStep(items: seq<Json>, x: string)
    ensures ArrayTail(items, x) == if items == [] then "]" + x else Print(items[0]) + AfterItem(items, x)
    ensures ArrayTail(items, x)[0] == ']' <==> items == []
  {
    if items != [] {
      FirstCharTellsKind(items[0]);
      assert ArrayTail(items, x)[0] == Print(items[0])[0];
    }
  }

  lemma Regroup(a: string, b: string, c: string, d: string)
    ensures a + b + c + d == a + (b + (c + d))
  {
  }

  lemma LastField(k: string, v: string, fields: seq<Field>, x: string)
    requires |fields| == 1 && k == Quote(fields[0].key) && v == Print(fields[0].value)
    ensures ObjectTail(fields, x) == k + (": " + (v + AfterField(fields, x)))
  {
    Regroup(k, ": ", v, "}" + x);
  }

  lemma OneOfManyFields(k: string, v: string, fields: seq<Field>, x: string)
    requires |fields| > 1 && k == Quote(fields[0].key) && v == Print(fields[0].value)
    ensures ObjectTail(fields, x) == k + (": " + (v + AfterField(fields, x)))
  {
    RegroupMore(k, ": ", v, ", ", PrintFields(fields[1..]), "}" + x);
  }

  lemma RegroupMore(a: string, b: string, c: string, d: string, e: string, f: string)
    ensures a + b + c + d + e + f == a + (b + (c + (d + (e + f))))
  {
    assert a + b + c + d + e + f == a + b + c + (d + (e + f));
    Regroup(a, b, c, d + (e + f));
  }

  lemma ObjectTailStep(fields: seq<Field>, x: string)
    ensures ObjectTail(fields, x) ==
              if fields == [] then "}" + x
              else Quote(fields[0].key) + (": " + (Print(fields[0].value) + AfterField(fields, x)))
    ensures ObjectTail(fields, x)[0] == if fields == [] then '}' else '"'
  {
    if |fields| == 1 {
      LastField(Quote(fields[0].key), Print(fields[0].value), fields, x);
    } else if fields != [] {
      OneOfManyFields(Quote(fields[0].key), Print(fields[0].value), fields, x);
    }
  }

  lemma ContainerStarts(j: Json, x: string)
    ensures j.Arr? ==> Print(j) + x == "[" + ArrayTail(j.items, x)
    ensures j.Obj? ==> Print(j) + x == "{" + ObjectTail(j.fields, x)
  {
  }

  /** A printed value can be told from any other even when more text follows. */
  lemma {:induction false} PrintPrefixFree(a: Json, b: Json, x: string, y: string)
    requires Print(a) + x == Print(b) + y && Ends(x) && Ends(y)
    ensures a == b && x == y
    decreases a, 0
  {
    FirstCharTellsKind(a);
    FirstCharTellsKind(b);
    assert (Print(a) + x)[0] == Print(a)[0] && (Print(b) + y)[0] == Print(b)[0];
    assert KindOf(a) == KindOf(b);
    ContainerStarts(a, x);
    ContainerStarts(b, y);
    match a
    case Null => SamePrefix("null", "null", x, y);
    case Bool(v) => SamePrefix(Print(Bool(v)), Print(Bool(v)), x, y);
    case Num(n) => NumberPrefixFree(n, b.n, x, y);
    case Str(s) => QuotePrefixFree(s, b.s, x, y);
    case Arr(items) =>
      SamePrefix("[", "[", ArrayTail(items, x), ArrayTail(b.items, y));
      ItemsPrefixFree(items, b.items, x, y);
    case Obj(fields) =>
      SamePrefix("{", "{", ObjectTail(fields, x), ObjectTail(b.fields, y));
      FieldsPrefixFree(fields, b.fields, x, y);
  }

  lemma {:induction false} ItemsPrefixFree(a: seq<Json>, b: seq<Json>, x: string, y: string)
    requires ArrayTail(a, x) == ArrayTail(b, y)
    ensures a == b && x == y
    decreases a, 1
  {
    ArrayTailStep(a, x);
    ArrayTailStep(b, y);
    if a == [] {
      SamePrefix("]", "]", x, y);
    } else {
      PrintPrefixFree(a[0], b[0], AfterItem(a, x), AfterItem(b, y));
      AfterItemStep(a, b, x, y);
      if |a| == 1 {
        assert a == [a[0]] && b == [b[0]];
      } else {
        ItemsPrefixFree(a[1..], b[1..], x, y);
        assert a == [a[0]] + a[1..] && b == [b[0]] + b[1..];
      }
    }
  }

  lemma AfterItemStep(a: seq<Json>, b: seq<Json>, x: string, y: string)
    requires a != [] && b != [] && AfterItem(a, x) == AfterItem(b, y)
    ensures |a| == 1 <==> |b| == 1
    ensures |a| == 1 ==> x == y
    ensures |a| > 1 ==> ArrayTail(a[1..], x) == ArrayTail(b[1..], y)
  {
    assert AfterItem(a, x)[0] == (if |a| == 1 then ']' else ',') && AfterItem(b, y)[0] == if |b| == 1 then ']' else ',';
    if |a| == 1 {
      SamePrefix("]", "]", x, y);
    } else {
      SamePrefix(", ", ", ", ArrayTail(a[1..], x), ArrayTail(b[1..], y));
    }
  }

  lemma AfterFieldStep(a: seq<Field>, b: seq<Field>, x: string, y: string)
    requires a != [] && b != [] && AfterField(a, x) == AfterField(b, y)
    ensures |a| == 1 <==> |b| == 1
    ensures |a| == 1 ==> x == y
    ensures |a| > 1 ==> ObjectTail(a[1..], x) == ObjectTail(b[1..], y)
  {
    assert AfterField(a, x)[0] == if |a| == 1 then '}' else ',';
    assert AfterField(b, y)[0] == if |b| == 1 then '}' else ',';
    if |a| == 1 {
      SamePrefix("}", "}", x, y);
    } else {
      SamePrefix(", ", ", ", ObjectTail(a[1..], x), ObjectTail(b[1..], y));
    }
  }

  lemma {:induction false} FieldPrefixFree(f: Field, g: Field, x: string, y: string)
    requires Quote(f.key) + (": " + (Print(f.value) + x)) == Quote(g.key) + (": " + (Print(g.value) + y))
    requires Ends(x) && Ends(y)
    ensures f == g && x == y
    decreases f, 1
  {
    QuotePrefixFree(f.key, g.key, ": " + (Print(f.value) + x), ": " + (Print(g.value) + y));
    SamePrefix(": ", ": ", Print(f.value) + x, Print(g.value) + y);
    PrintPrefixFree(f.value, g.value, x, y);
  }

  lemma {:induction false} FieldsPrefixFree(a: seq<Field>, b: seq<Field>, x: string, y: string)
    requires ObjectTail(a, x) == ObjectTail(b, y)
    ensures a == b && x == y
    decreases a, 2
  {
    ObjectTailStep(a, x);
    ObjectTailStep(b, y);
    if a == [] {
      SamePrefix("}", "}", x, y);
    } else {
      FieldPrefixFree(a[0], b[0], AfterField(a, x), AfterField(b, y));
      AfterFieldStep(a, b, x, y);
      if |a| == 1 {
        assert a == [a[0]] && b == [b[0]];
      } else {
        FieldsPrefixFree(a[1..], b[1..], x, y);
        assert a == [a[0]] + a[1..] && b == [b[0]] + b[1..];
      }
    }
  }

  /** Different values print differently, so a reader that inverts the printer exists. */
  lemma PrintInjective(a: Json, b: Json)
    requires Print(a) == Print(b)
    ensures a == b
  {
    assert Print(a) + "" == Print(a) && Print(b) + "" == Print(b);
    PrintPrefixFree(a, b, "", "");
  }
}
