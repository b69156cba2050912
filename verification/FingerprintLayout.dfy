/** The text that is hashed, spelled out as the server prints it. */
module FingerprintLayout {
  import opened Decimals
  import opened Fingerprint
  import opened Observations

  /** The next field goes behind what has been written. */
  lemma Written(before: string, f: Field, rest: seq<Field>, printable: char -> bool)
    ensures before + EncodeFields([f] + rest, printable)
         == before + f.tag + Render(f.value, printable) + f.separator + EncodeFields(rest, printable)
  {
    hide Render;
    assert ([f] + rest)[1..] == rest;
    Regrouped(before, f.tag, Render(f.value, printable), f.separator, EncodeFields(rest, printable));
  }

  lemma Regrouped(a: string, b: string, c: string, d: string, e: string)
    ensures a + (b + (c + (d + e))) == a + b + c + d + e
  {
  }

  function Add(before: string, f: Field, printable: char -> bool): string {
    before + f.tag + Render(f.value, printable) + f.separator
  }

  lemma ThreeWritten(before: string, a: Field, b: Field, c: Field, rest: seq<Field>, printable: char -> bool)
    ensures before + EncodeFields([a, b, c] + rest, printable)
         == Add(Add(Add(before, a, printable), b, printable), c, printable) + EncodeFields(rest, printable)
  {
    hide EncodeFields, Render;
    assert [a, b, c] + rest == [a] + ([b] + ([c] + rest));
    var x := Add(before, a, printable);
    var y := Add(x, b, printable);
    Written(before, a, [b] + ([c] + rest), printable);
    Written(x, b, [c] + rest, printable);
    Written(y, c, rest, printable);
  }

  /** What the loop over the categories appends. */
  function CategoriesPrinted(before: string, categories: seq<Category>, printable: char -> bool): string
    decreases |categories|
  {
    if |categories| == 0 then before
    else
      var c := categories[0];
      CategoriesPrinted(before + "c=" + Quote(c.matchType, printable) + "," + Quote(c.pattern, printable) + ","
                        + Quote(c.category, printable) + ";", categories[1..], printable)
  }

  lemma {:induction false} CategoriesWritten(before: string, categories: seq<Category>, printable: char -> bool)
    ensures before + EncodeFields(CategoryFields(categories), printable)
         == CategoriesPrinted(before, categories, printable)
    decreases |categories|
  {
    hide Quote;
    if |categories| > 0 {
      var c, rest := categories[0], categories[1..];
      OneCategory(before, c, CategoryFields(rest), printable);
      CategoriesWritten(before + "c=" + Quote(c.matchType, printable) + "," + Quote(c.pattern, printable) + ","
                        + Quote(c.category, printable) + ";", rest, printable);
    } else {
      assert before + "" == before;
    }
  }

  lemma OneCategory(before: string, c: Category, rest: seq<Field>, printable: char -> bool)
    ensures before + EncodeFields(CategoryEntry(c) + rest, printable)
         == before + "c=" + Quote(c.matchType, printable) + "," + Quote(c.pattern, printable) + ","
            + Quote(c.category, printable) + ";" + EncodeFields(rest, printable)
  {
    hide Quote, EncodeFields;
    var f := CategoryEntry(c);
    assert f == [f[0], f[1], f[2]];
    ThreeWritten(before, f[0], f[1], f[2], rest, printable);
    var x := before + "c=" + Quote(c.matchType, printable) + ",";
    assert x + "" == x;
    var y := x + Quote(c.pattern, printable) + ",";
    assert y + "" == y;
  }

  function Bool(b: bool): string { if b then "true" else "false" }

  /** All of it: the header in one piece, then one piece for every category. */
  lemma PrintedAs(c: ClientConfig, printable: char -> bool)
    ensures FingerprintText(c, printable)
         == CategoriesPrinted(
              "i=" + Number(c.idleThreshold) + ";" + "u=" + Number(c.uploadInterval) + ";"
              + "p=" + Number(c.pollInterval) + ";" + "g=" + Number(c.maxGap) + ";" + "d=" + Bool(c.debugMode) + ";"
              + "l=" + Bool(c.locked) + ";" + "m=" + Quote(c.lockMessage, printable) + ";"
              + "w=" + Number(c.warningSeconds) + ";" + "s=" + Quote(c.warningSound, printable) + ";"
              + "v=" + Quote(c.desiredVersion, printable) + "," + Quote(c.artifactName, printable) + ","
              + Quote(c.sha256, printable) + ";",
              c.categories, printable)
  {
    hide Quote, EncodeFields, Number, CategoriesPrinted, CategoryFields;
    var f, rest := HeaderFields(c), CategoryFields(c.categories);
    var a := Add(Add(Add("", f[0], printable), f[1], printable), f[2], printable);
    var b := Add(Add(Add(a, f[3], printable), f[4], printable), f[5], printable);
    var d := Add(Add(Add(b, f[6], printable), f[7], printable), f[8], printable);
    var e := Add(Add(Add(d, f[9], printable), f[10], printable), f[11], printable);
    HeaderSplit(f, rest);
    ThreeWritten("", f[0], f[1], f[2], f[3..6] + (f[6..9] + (f[9..12] + rest)), printable);
    ThreeWritten(a, f[3], f[4], f[5], f[6..9] + (f[9..12] + rest), printable);
    ThreeWritten(b, f[6], f[7], f[8], f[9..12] + rest, printable);
    ThreeWritten(d, f[9], f[10], f[11], rest, printable);
    CategoriesWritten(e, c.categories, printable);
    HeaderPrinted(c, printable, a, b, d, e);
    assert "" + EncodeFields(f + rest, printable) == EncodeFields(f + rest, printable);
  }

  lemma HeaderSplit(f: seq<Field>, rest: seq<Field>)
    requires |f| == 12
    ensures f + rest == [f[0], f[1], f[2]] + (f[3..6] + (f[6..9] + (f[9..12] + rest)))
    ensures f[3..6] == [f[3], f[4], f[5]] && f[6..9] == [f[6], f[7], f[8]] && f[9..12] == [f[9], f[10], f[11]]
  {
  }

  lemma HeaderPrinted(c: ClientConfig, printable: char -> bool, a: string, b: string, d: string, e: string)
    requires var f := HeaderFields(c);
             && a == Add(Add(Add("", f[0], printable), f[1], printable), f[2], printable)
             && b == Add(Add(Add(a, f[3], printable), f[4], printable), f[5], printable)
             && d == Add(Add(Add(b, f[6], printable), f[7], printable), f[8], printable)
             && e == Add(Add(Add(d, f[9], printable), f[10], printable), f[11], printable)
    ensures e == "i=" + Number(c.idleThreshold) + ";" + "u=" + Number(c.uploadInterval) + ";"
                 + "p=" + Number(c.pollInterval) + ";" + "g=" + Number(c.maxGap) + ";" + "d=" + Bool(c.debugMode) + ";"
                 + "l=" + Bool(c.locked) + ";" + "m=" + Quote(c.lockMessage, printable) + ";"
                 + "w=" + Number(c.warningSeconds) + ";" + "s=" + Quote(c.warningSound, printable) + ";"
                 + "v=" + Quote(c.desiredVersion, printable) + "," + Quote(c.artifactName, printable) + ","
                 + Quote(c.sha256, printable) + ";"
  {
    hide Quote, Number;
    assert "" + "i=" == "i=";
    var v := d + "v=" + Quote(c.desiredVersion, printable) + ",";
    assert v + "" == v;
    var w := v + Quote(c.artifactName, printable) + ",";
    assert w + "" == w;
  }

  // ---- quoted texts are read back ---------------------------------------------

  function HexValue(c: char): nat {
    if '0' <= c <= '9' then c as int - '0' as int else if 'a' <= c <= 'f' then c as int - 'a' as int + 10 else 0
  }

  function ReadHex(s: string): nat {
    if |s| == 0 then 0 else 16 * ReadHex(s[..|s| - 1]) + HexValue(s[|s| - 1])
  }

  lemma {:induction false} HexReads(n: nat, width: nat)
    requires n < Power16(width)
    ensures |Hex(n, width)| == width && ReadHex(Hex(n, width)) == n
  {
    if width > 0 {
      HexReads(n / 16, width - 1);
      var s := Hex(n, width);
      assert s[..|s| - 1] == Hex(n / 16, width - 1) && HexValue(Digit(n % 16)) == n % 16;
    }
  }

  /** The character behind a backslash and this letter, where no digits follow. */
  function Named(c: char): Option<char> {
    match c
    case 'a' => Some(7 as char)
    case 'b' => Some(8 as char)
    case 'f' => Some(12 as char)
    case 'n' => Some('\n')
    case 'r' => Some('\r')
    case 't' => Some('\t')
    case 'v' => Some(11 as char)
    case '"' => Some('"')
    case '\\' => Some('\\')
    case _ => None
  }

  /** How many hexadecimal digits follow this letter. */
  function HexDigits(c: char): nat {
    match c case 'x' => 2 case 'u' => 4 case 'U' => 8 case _ => 0
  }

  /** The code of the first character of a quoted text, and how many letters it takes. */
  function ReadOne(s: string): (int, nat) {
    if |s| == 0 then (0, 0)
    else if s[0] != '\\' || |s| == 1 then (s[0] as int, 1)
    else if Named(s[1]).Some? then (Named(s[1]).value as int, 2)
    else
      var width := HexDigits(s[1]);
      if |s| < 2 + width then (0, 0) else (ReadHex(s[2..2 + width]), 2 + width)
  }

  /** Every character is read back from its escape, whatever follows. */
  lemma EscapeReads(c: char, rest: string, printable: char -> bool)
    ensures ReadOne(Escape(c, printable) + rest) == (c as int, |Escape(c, printable)|)
  {
    var e, n := Escape(c, printable), c as int;
    var s := e + rest;
    assert s[0] == e[0] && (|e| > 1 ==> s[1] == e[1]);
    assert Power16(2) == 256 && Power16(4) == 0x10000 && Power16(8) == 0x1_0000_0000;
    EscapeShape(c, printable);
    if |e| > 2 {
      var width := |e| - 2;
      assert width == HexDigits(e[1]) && Named(e[1]).None?;
      HexReads(n, width);
      assert s[2..2 + width] == e[2..] == Hex(n, width);
    }
  }
}
