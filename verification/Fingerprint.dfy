/** The text the configuration fingerprint is hashed from, and why it determines the
    configuration a client is sent. */
module Fingerprint {
  import opened Decimals

  datatype Category = Category(id: int, matchType: string, pattern: string, category: string)

  datatype ClientConfig = ClientConfig(
    deviceId: int,
    idleThreshold: int,
    uploadInterval: int,
    pollInterval: int,
    maxGap: int,
    debugMode: bool,
    locked: bool,
    lockMessage: string,
    warningSeconds: int,
    warningSound: string,
    desiredVersion: string,
    artifactName: string,
    sha256: string,
    categories: seq<Category>
  )

  // ---- decimal numbers and quoted text ----------------------------------------

  function Hex(n: nat, width: nat): string {
    if width == 0 then "" else Hex(n / 16, width - 1) + [Digit(n % 16)]
  }

  /** One character of a quoted text; `printable` is the Unicode notion of a printable character. */
  function Escape(c: char, printable: char -> bool): string {
    if c == '"' then "\\\""
    else if c == '\\' then "\\\\"
    else if printable(c) then [c]
    else match c as int
      case 7 => "\\a"
      case 8 => "\\b"
      case 12 => "\\f"
      case 10 => "\\n"
      case 13 => "\\r"
      case 9 => "\\t"
      case 11 => "\\v"
      case n =>
        if n < 32 || n == 127 then "\\x" + Hex(n, 2)
        else if n < 0x10000 then "\\u" + Hex(n, 4)
        else "\\U" + Hex(n, 8)
  }

  function Escaped(s: string, printable: char -> bool): string {
    if |s| == 0 then "" else Escape(s[0], printable) + Escaped(s[1..], printable)
  }

  function Quote(s: string, printable: char -> bool): string {
    "\"" + (Escaped(s, printable) + "\"")
  }

  function Power16(w: nat): nat {
    if w == 0 then 1 else 16 * Power16(w - 1)
  }

  lemma HexStep(n: nat, m: nat, w: nat)
    requires w > 0 && Hex(n, w) == Hex(m, w)
    ensures Hex(n / 16, w - 1) == Hex(m / 16, w - 1) && Digit(n % 16) == Digit(m % 16)
  {
    HexLength(n / 16, w - 1);
    HexLength(m / 16, w - 1);
    SplitEqual(Hex(n / 16, w - 1), Hex(m / 16, w - 1), [Digit(n % 16)], [Digit(m % 16)]);
    assert [Digit(n % 16)][0] == [Digit(m % 16)][0];
  }

  lemma {:induction false} HexInjective(n: nat, m: nat, w: nat)
    requires n < Power16(w) && m < Power16(w) && Hex(n, w) == Hex(m, w)
    ensures n == m
  {
    if w > 0 {
      HexStep(n, m, w);
      HexInjective(n / 16, m / 16, w - 1);
      DigitInjective(n % 16, m % 16);
    }
  }

  lemma {:induction false} HexLength(n: nat, w: nat)
    ensures |Hex(n, w)| == w
  {
    if w > 0 { HexLength(n / 16, w - 1); }
  }

  /** The letter after a backslash says how long an escape is. */
  function EscapeWidth(c: char, printable: char -> bool): nat {
    if c == '"' || c == '\\' then 0
    else var n := c as int;
      if 7 <= n <= 13 then 0 else if n < 32 || n == 127 then 2 else if n < 0x10000 then 4 else 8
  }

  lemma EscapeShape(c: char, printable: char -> bool)
    ensures var e := Escape(c, printable);
            if c != '"' && c != '\\' && printable(c) then e == [c]
            else |e| == 2 + EscapeWidth(c, printable) && e[0] == '\\'
                 && e[2..] == Hex(c as int, EscapeWidth(c, printable))
  {
    HexLength(c as int, 2);
    HexLength(c as int, 4);
    HexLength(c as int, 8);
  }

  lemma EscapeLetters(c: char, d: char, printable: char -> bool)
    requires |Escape(c, printable)| > 1 && |Escape(d, printable)| > 1
    requires Escape(c, printable)[1] == Escape(d, printable)[1]
    ensures EscapeWidth(c, printable) == EscapeWidth(d, printable)
    ensures EscapeWidth(c, printable) == 0 ==> c == d
    ensures EscapeWidth(c, printable) == 2 ==> c as int < 256 && d as int < 256
    ensures EscapeWidth(c, printable) == 4 ==> c as int < 0x10000 && d as int < 0x10000
  {
  }

  /** No escape is the beginning of another one. */
  lemma EscapeThen(c: char, d: char, x: string, y: string, printable: char -> bool)
    requires Escape(c, printable) + x == Escape(d, printable) + y
    ensures c == d && x == y
  {
    var e, f := Escape(c, printable), Escape(d, printable);
    EscapeShape(c, printable);
    EscapeShape(d, printable);
    assert (e + x)[0] == e[0] && (f + y)[0] == f[0];
    if |e| > 1 {
      assert (e + x)[1] == e[1] && (f + y)[1] == f[1];
      EscapeLetters(c, d, printable);
      SplitEqual(e, f, x, y);
      var w := EscapeWidth(c, printable);
      assert Power16(2) == 256 && Power16(4) == 0x10000 && Power16(8) == 0x1_0000_0000;
      if w > 0 {
        HexInjective(c as int, d as int, w);
      }
    } else {
      SplitEqual(e, f, x, y);
    }
  }

  lemma EscapedHead(s: string, x: string, printable: char -> bool)
    requires |s| > 0
    ensures (Escaped(s, printable) + x)[0] != '"'
  {
    EscapeShape(s[0], printable);
    assert (Escaped(s, printable) + x)[0] == Escape(s[0], printable)[0];
  }

  lemma EscapedStep(s: string, x: string, printable: char -> bool)
    requires |s| > 0
    ensures Escaped(s, printable) + x == Escape(s[0], printable) + (Escaped(s[1..], printable) + x)
  {
  }

  lemma {:induction false} EscapedThen(s: string, t: string, x: string, y: string, printable: char -> bool)
    requires Escaped(s, printable) + ("\"" + x) == Escaped(t, printable) + ("\"" + y)
    ensures s == t && x == y
  {
    var a, b := "\"" + x, "\"" + y;
    if |s| > 0 { EscapedHead(s, a, printable); }
    if |t| > 0 { EscapedHead(t, b, printable); }
    if |s| == 0 || |t| == 0 {
      assert a[0] == '"' && b[0] == '"' && "" + a == a && "" + b == b;
      assert |s| == 0 && |t| == 0;
      SplitEqual("\"", "\"", x, y);
    } else {
      EscapedStep(s, a, printable);
      EscapedStep(t, b, printable);
      EscapeThen(s[0], t[0], Escaped(s[1..], printable) + a, Escaped(t[1..], printable) + b, printable);
      EscapedThen(s[1..], t[1..], x, y, printable);
      assert s == [s[0]] + s[1..] && t == [t[0]] + t[1..];
    }
  }

  /** A quoted text ends where its closing quote is, whatever the text contains. */
  lemma QuoteThen(s: string, t: string, x: string, y: string, printable: char -> bool)
    requires Quote(s, printable) + x == Quote(t, printable) + y
    ensures s == t && x == y
  {
    var a, b := Escaped(s, printable) + ("\"" + x), Escaped(t, printable) + ("\"" + y);
    assert Quote(s, printable) + x == "\"" + a && Quote(t, printable) + y == "\"" + b;
    SplitEqual("\"", "\"", a, b);
    EscapedThen(s, t, x, y, printable);
  }

  // ---- the encoding -----------------------------------------------------------

  datatype Value = Num(n: int) | Flag(b: bool) | Text(s: string)

  /** A tagged value and the separator after it. */
  datatype Field = Field(tag: string, value: Value, separator: string)

  function Render(v: Value, printable: char -> bool): string {
    match v
    case Num(n) => Number(n)
    case Flag(b) => if b then "true" else "false"
    case Text(s) => Quote(s, printable)
  }

  function EncodeFields(fields: seq<Field>, printable: char -> bool): string {
    if |fields| == 0 then ""
    else
      fields[0].tag
      + (Render(fields[0].value, printable) + (fields[0].separator + EncodeFields(fields[1..], printable)))
  }

  function CategoryEntry(c: Category): seq<Field> {
    [Field("c=", Text(c.matchType), ","), Field("", Text(c.pattern), ","), Field("", Text(c.category), ";")]
  }

  function CategoryFields(categories: seq<Category>): seq<Field> {
    if |categories| == 0 then [] else CategoryEntry(categories[0]) + CategoryFields(categories[1..])
  }

  function HeaderFields(c: ClientConfig): seq<Field> {
    [ Field("i=", Num(c.idleThreshold), ";"),
      Field("u=", Num(c.uploadInterval), ";"),
      Field("p=", Num(c.pollInterval), ";"),
      Field("g=", Num(c.maxGap), ";"),
      Field("d=", Flag(c.debugMode), ";"),
      Field("l=", Flag(c.locked), ";"),
      Field("m=", Text(c.lockMessage), ";"),
      Field("w=", Num(c.warningSeconds), ";"),
      Field("s=", Text(c.warningSound), ";"),
      Field("v=", Text(c.desiredVersion), ","),
      Field("", Text(c.artifactName), ","),
      Field("", Text(c.sha256), ";") ]
  }

  /** The bytes written into the hash. */
  function FingerprintText(c: ClientConfig, printable: char -> bool): string {
    EncodeFields(HeaderFields(c) + CategoryFields(c.categories), printable)
  }

  lemma {:induction false} EncodeConcat(a: seq<Field>, b: seq<Field>, printable: char -> bool)
    ensures EncodeFields(a + b, printable) == EncodeFields(a, printable) + EncodeFields(b, printable)
  {
    if |a| == 0 {
      assert a + b == b;
    } else {
      assert (a + b)[1..] == a[1..] + b;
      EncodeConcat(a[1..], b, printable);
    }
  }

  lemma CategoryStep(categories: seq<Category>, i: nat, printable: char -> bool)
    requires i < |categories|
    ensures EncodeFields(CategoryFields(categories[i..]), printable)
         == EncodeFields(CategoryEntry(categories[i]), printable)
            + EncodeFields(CategoryFields(categories[i + 1..]), printable)
  {
    assert categories[i..][0] == categories[i] && categories[i..][1..] == categories[i + 1..];
    EncodeConcat(CategoryEntry(categories[i]), CategoryFields(categories[i + 1..]), printable);
  }

  lemma CategoryTurn(written: string, categories: seq<Category>, i: nat, printable: char -> bool)
    requires i < |categories|
    ensures written + EncodeFields(CategoryFields(categories[i..]), printable)
         == (written + EncodeFields(CategoryEntry(categories[i]), printable))
            + EncodeFields(CategoryFields(categories[i + 1..]), printable)
  {
    CategoryStep(categories, i, printable);
    TextAssociates(written, EncodeFields(CategoryEntry(categories[i]), printable),
                   EncodeFields(CategoryFields(categories[i + 1..]), printable));
  }

  lemma TextAssociates(x: string, y: string, z: string)
    ensures x + (y + z) == (x + y) + z
  {
  }

  /** Writes the fields and then, one loop turn each, the categories. */
  method ConfigVersionText(c: ClientConfig, printable: char -> bool) returns (written: string)
    ensures written == FingerprintText(c, printable)
  {
    written := EncodeFields(HeaderFields(c), printable);
    EncodeConcat(HeaderFields(c), CategoryFields(c.categories), printable);
    written := WriteCategories(written, c.categories, printable);
  }

  method WriteCategories(before: string, categories: seq<Category>, printable: char -> bool) returns (written: string)
    ensures written == before + EncodeFields(CategoryFields(categories), printable)
  {
    written := before;
    assert categories[0..] == categories;
    for i := 0 to |categories|
      invariant written + EncodeFields(CategoryFields(categories[i..]), printable)
             == before + EncodeFields(CategoryFields(categories), printable)
    {
      CategoryTurn(written, categories, i, printable);
      written := written + EncodeFields(CategoryEntry(categories[i]), printable);
    }
    assert categories[|categories|..] == [];
  }

  /** Same tag, same separator, same kind of value; numbers and flags end with a semicolon. */
  predicate SameShape(a: Field, b: Field) {
    && a.tag == b.tag && a.separator == b.separator
    && ((a.value.Num? && b.value.Num? && a.separator == ";") || (a.value.Flag? && b.value.Flag?)
        || (a.value.Text? && b.value.Text?))
  }

  lemma RenderThen(a: Field, b: Field, x: string, y: string, printable: char -> bool)
    requires SameShape(a, b)
    requires Render(a.value, printable) + (a.separator + x) == Render(b.value, printable) + (b.separator + y)
    ensures a == b && x == y
  {
    match (a.value, b.value)
    case (Num(n), Num(m)) => NumberThen(n, m, ';', x, y);
    case (Text(s), Text(t)) =>
      QuoteThen(s, t, a.separator + x, b.separator + y, printable);
      SplitEqual(a.separator, b.separator, x, y);
    case (Flag(p), Flag(q)) =>
      assert (Render(a.value, printable) + (a.separator + x))[0] == Render(a.value, printable)[0];
      assert (Render(b.value, printable) + (b.separator + y))[0] == Render(b.value, printable)[0];
      SplitEqual(Render(a.value, printable), Render(b.value, printable), a.separator + x, b.separator + y);
      SplitEqual(a.separator, b.separator, x, y);
  }

  lemma {:induction false} FieldsInjective(a: seq<Field>, b: seq<Field>, printable: char -> bool)
    requires forall i :: 0 <= i < |a| && i < |b| ==> SameShape(a[i], b[i])
    requires (forall i :: 0 <= i < |a| ==> a[i].separator != "") && forall i :: 0 <= i < |b| ==> b[i].separator != ""
    requires EncodeFields(a, printable) == EncodeFields(b, printable)
    ensures a == b
  {
    if |a| > 0 && |b| > 0 {
      var x, y := EncodeFields(a[1..], printable), EncodeFields(b[1..], printable);
      SplitEqual(a[0].tag, b[0].tag, Render(a[0].value, printable) + (a[0].separator + x),
                 Render(b[0].value, printable) + (b[0].separator + y));
      RenderThen(a[0], b[0], x, y, printable);
      FieldsInjective(a[1..], b[1..], printable);
      assert a == [a[0]] + a[1..] && b == [b[0]] + b[1..];
    }
  }

  lemma {:induction false} CategoryShapes(a: seq<Category>, b: seq<Category>)
    ensures var f, g := CategoryFields(a), CategoryFields(b);
            && |f| == 3 * |a| && |g| == 3 * |b|
            && (forall i :: 0 <= i < |f| && i < |g| ==> SameShape(f[i], g[i]))
            && (forall i :: 0 <= i < |f| ==> f[i].separator != "")
            && (forall i :: 0 <= i < |g| ==> g[i].separator != "")
  {
    if |a| > 0 { CategoryShapes(a[1..], if |b| > 0 then b[1..] else b); }
    else if |b| > 0 { CategoryShapes(a, b[1..]); }
  }

  // ---- the body a client is sent ----------------------------------------------

  /** What a response says about the configuration; row ids and the device id stay behind. */
  datatype Contents = Contents(
    idleThreshold: int,
    uploadInterval: int,
    pollInterval: int,
    maxGap: int,
    debugMode: bool,
    locked: bool,
    lockMessage: string,
    warningSeconds: int,
    warningSound: string,
    desiredVersion: string,
    artifactName: string,
    sha256: string,
    categories: seq<(string, string, string)>
  )

  datatype Body = Body(clientId: string, version: string, contents: Contents)

  function CategoryContents(categories: seq<Category>): seq<(string, string, string)> {
    if |categories| == 0 then []
    else [(categories[0].matchType, categories[0].pattern, categories[0].category)] + CategoryContents(categories[1..])
  }

  lemma {:induction false} CategoryContentsAre(categories: seq<Category>)
    ensures |CategoryContents(categories)| == |categories|
    ensures forall i :: 0 <= i < |categories| ==>
              CategoryContents(categories)[i]
              == (categories[i].matchType, categories[i].pattern, categories[i].category)
  {
    if |categories| > 0 {
      CategoryContentsAre(categories[1..]);
    }
  }

  function ContentsOf(c: ClientConfig): Contents {
    Contents(c.idleThreshold, c.uploadInterval, c.pollInterval, c.maxGap, c.debugMode, c.locked, c.lockMessage,
             c.warningSeconds, c.warningSound, c.desiredVersion, c.artifactName, c.sha256,
             CategoryContents(c.categories))
  }

  function BodyOf(clientId: string, c: ClientConfig, printable: char -> bool): Body {
    Body(clientId, FingerprintText(c, printable), ContentsOf(c))
  }

  lemma {:induction false} CategoryFieldsDetermine(a: seq<Category>, b: seq<Category>)
    ensures CategoryFields(a) == CategoryFields(b) <==> CategoryContents(a) == CategoryContents(b)
  {
    CategoryShapes(a, b);
    if |a| > 0 && |b| > 0 {
      CategoryFieldsDetermine(a[1..], b[1..]);
      assert CategoryFields(a)[3..] == CategoryFields(a[1..]) && CategoryFields(b)[3..] == CategoryFields(b[1..]);
      assert CategoryContents(a)[1..] == CategoryContents(a[1..])
             && CategoryContents(b)[1..] == CategoryContents(b[1..]);
      assert CategoryFields(a) == CategoryFields(a)[..3] + CategoryFields(a)[3..];
      assert CategoryFields(b) == CategoryFields(b)[..3] + CategoryFields(b)[3..];
    }
  }

  /** The header's twelve values can be read back from its fields. */
  lemma HeaderDetermines(a: ClientConfig, b: ClientConfig)
    requires HeaderFields(a) == HeaderFields(b) && CategoryContents(a.categories) == CategoryContents(b.categories)
    ensures ContentsOf(a) == ContentsOf(b)
  {
    var h, k := HeaderFields(a), HeaderFields(b);
    assert h[0] == k[0] && h[1] == k[1] && h[2] == k[2] && h[3] == k[3] && h[4] == k[4] && h[5] == k[5];
    assert h[6] == k[6] && h[7] == k[7] && h[8] == k[8] && h[9] == k[9] && h[10] == k[10] && h[11] == k[11];
  }

  lemma FieldsApart(a: ClientConfig, b: ClientConfig)
    requires HeaderFields(a) + CategoryFields(a.categories) == HeaderFields(b) + CategoryFields(b.categories)
    ensures HeaderFields(a) == HeaderFields(b) && CategoryFields(a.categories) == CategoryFields(b.categories)
  {
    var f, g := HeaderFields(a) + CategoryFields(a.categories), HeaderFields(b) + CategoryFields(b.categories);
    assert f[..12] == HeaderFields(a) && g[..12] == HeaderFields(b);
    assert f[12..] == CategoryFields(a.categories) && g[12..] == CategoryFields(b.categories);
  }

  lemma HeaderShapes(a: ClientConfig, b: ClientConfig)
    ensures |HeaderFields(a)| == |HeaderFields(b)| == 12
    ensures forall i :: 0 <= i < 12 ==>
              SameShape(HeaderFields(a)[i], HeaderFields(b)[i]) && HeaderFields(a)[i].separator != ""
  {
  }

  lemma ShapesConcat(h: seq<Field>, k: seq<Field>, f: seq<Field>, g: seq<Field>)
    requires |h| == |k| && forall i :: 0 <= i < |h| ==> SameShape(h[i], k[i])
    requires forall i :: 0 <= i < |f| && i < |g| ==> SameShape(f[i], g[i])
    ensures forall i :: 0 <= i < |h + f| && i < |k + g| ==> SameShape((h + f)[i], (k + g)[i])
  {
  }

  lemma AllShapes(a: ClientConfig, b: ClientConfig)
    ensures var f, g := HeaderFields(a) + CategoryFields(a.categories), HeaderFields(b) + CategoryFields(b.categories);
            && (forall i :: 0 <= i < |f| && i < |g| ==> SameShape(f[i], g[i]))
            && (forall i :: 0 <= i < |f| ==> f[i].separator != "")
            && (forall i :: 0 <= i < |g| ==> g[i].separator != "")
  {
    CategoryShapes(a.categories, b.categories);
    HeaderShapes(a, b);
    HeaderShapes(b, a);
    ShapesConcat(HeaderFields(a), HeaderFields(b), CategoryFields(a.categories), CategoryFields(b.categories));
  }

  /** Two configurations are hashed from the same text exactly when a client would be told the
      same for both, and then the whole bodies agree. */
  lemma FingerprintDeterminesBody(clientId: string, a: ClientConfig, b: ClientConfig, printable: char -> bool)
    ensures FingerprintText(a, printable) == FingerprintText(b, printable) <==> ContentsOf(a) == ContentsOf(b)
    ensures FingerprintText(a, printable) == FingerprintText(b, printable)
       <==> BodyOf(clientId, a, printable) == BodyOf(clientId, b, printable)
  {
    CategoryFieldsDetermine(a.categories, b.categories);
    if FingerprintText(a, printable) == FingerprintText(b, printable) {
      AllShapes(a, b);
      FieldsInjective(HeaderFields(a) + CategoryFields(a.categories), HeaderFields(b) + CategoryFields(b.categories),
                      printable);
      FieldsApart(a, b);
      HeaderDetermines(a, b);
    }
  }
}
