/** The export of the selected workers as an ÁNYK "T1042E" declaration.  The
    document is a fixed template: a form header, three fields naming the
    employer, then eight fields per worker whose codes ("eazon") carry the
    worker's 1-based position, zero-padded to four digits.  The byte form of the
    XML is not modelled; the element tree is. */
module ExportXml {
  import RecordStore

  type Worker = RecordStore.Worker

  /** The current date, read from the clock in the source and a parameter here. */
  datatype Date = Date(year: int, month: nat, day: nat)

  datatype Attr = Attr(name: string, value: string)

  /** An XML element: name, attributes, text body and child elements. */
  datatype Element = Element(name: string, attrs: seq<Attr>, text: string, children: seq<Element>)

  /** The XML declaration followed by the root element. */
  datatype Document = Document(prolog: string, root: Element)

  /** One `mezo` element: its `eazon` code and its text. */
  datatype Field = Field(code: string, text: string)

  // ---------------------------------------------------------------------------
  // Decimal digits.

  predicate IsDigit(c: char) {
    '0' <= c <= '9'
  }

  predicate AllDigits(s: string) {
    forall k :: 0 <= k < |s| ==> IsDigit(s[k])
  }

  function DigitChar(d: nat): (c: char)
    requires d < 10
    ensures IsDigit(c)
  {
    ('0' as int + d) as char
  }

  /** `usize::to_string`: the decimal digits of `n`, no leading zero. */
  function Decimal(n: nat): (s: string)
    ensures |s| >= 1 && AllDigits(s)
    ensures s[0] == '0' <==> n == 0
  {
    if n < 10 then [DigitChar(n)] else Decimal(n / 10) + [DigitChar(n % 10)]
  }

  function DigitValue(c: char): nat {
    if IsDigit(c) then c as nat - '0' as nat else 0
  }

  /** The number a string of decimal digits denotes. */
  function DecimalValue(s: string): nat {
    if s == [] then 0 else 10 * DecimalValue(s[..|s| - 1]) + DigitValue(s[|s| - 1])
  }

  lemma {:induction false} DecimalRoundTrip(n: nat)
    ensures DecimalValue(Decimal(n)) == n
  {
    if n >= 10 {
      var s := Decimal(n);
      assert s[..|s| - 1] == Decimal(n / 10);
      DecimalRoundTrip(n / 10);
    }
  }

  /** A year as `i32`'s `Display` writes it. */
  function IntToString(y: int): string {
    if y < 0 then "-" + Decimal(-y) else Decimal(y)
  }

  function Zeros(k: nat): (s: string)
    ensures |s| == k && forall j :: 0 <= j < k ==> s[j] == '0'
  {
    if k == 0 then "" else "0" + Zeros(k - 1)
  }

  /** Leading zeros do not change the number a digit string denotes. */
  lemma {:induction false} LeadingZeros(k: nat, s: string)
    ensures DecimalValue(Zeros(k) + s) == DecimalValue(s)
    decreases |s| + k
  {
    if s == [] {
      if k > 0 {
        assert (Zeros(k) + s)[..k - 1] == Zeros(k - 1) + s;
        LeadingZeros(k - 1, s);
      } else {
        assert Zeros(k) + s == s;
      }
    } else {
      var t := Zeros(k) + s;
      assert t[..|t| - 1] == Zeros(k) + s[..|s| - 1];
      LeadingZeros(k, s[..|s| - 1]);
    }
  }

  function Max(a: nat, b: nat): nat {
    if a < b then b else a
  }

  /** What `pad(i, size)` returns: the decimal digits of `i` behind as many zeros
      as bring the length up to `size`.  Nothing is ever cut off. */
  function Padded(i: nat, size: nat): (s: string)
    ensures |s| == Max(size, |Decimal(i)|)
    ensures s == Zeros(|s| - |Decimal(i)|) + Decimal(i)
  {
    var d := Decimal(i);
    if |d| < size then Zeros(size - |d|) + d else assert Zeros(0) + d == d; d
  }

  lemma DigitsAppend(a: string, b: string)
    requires AllDigits(a) && AllDigits(b)
    ensures AllDigits(a + b)
  {
    forall k | 0 <= k < |a + b| ensures IsDigit((a + b)[k]) {
      if k >= |a| {
        assert (a + b)[k] == b[k - |a|];
      }
    }
  }

  /** A padded number is all digits and still denotes the number. */
  lemma PaddedDenotes(i: nat, size: nat)
    ensures AllDigits(Padded(i, size))
    ensures DecimalValue(Padded(i, size)) == i
  {
    var d := Decimal(i);
    var z := |Padded(i, size)| - |d|;
    assert Padded(i, size) == Zeros(z) + d;
    LeadingZeros(z, d);
    DecimalRoundTrip(i);
    DigitsAppend(Zeros(z), d);
  }

  /** Padding to a fixed width is injective. */
  lemma PaddedInjective(i: nat, j: nat, size: nat)
    ensures Padded(i, size) == Padded(j, size) <==> i == j
  {
    PaddedDenotes(i, size);
    PaddedDenotes(j, size);
  }

  function Pow10(k: nat): (r: nat)
    ensures r >= 1
  {
    if k == 0 then 1 else 10 * Pow10(k - 1)
  }

  lemma {:induction false} DecimalLength(n: nat, k: nat)
    requires n < Pow10(k)
    ensures |Decimal(n)| <= Max(k, 1)
  {
    if n >= 10 {
      DecimalLength(n / 10, k - 1);
    }
  }

  /** Positions 1 to 9999 pad to exactly four digits. */
  lemma PaddedFour(p: nat)
    requires p < 10000
    ensures |Padded(p, 4)| == 4
  {
    assert Pow10(4) == 10000;
    DecimalLength(p, 4);
  }

  /** The `%y` year of the form id is exactly two digits, and they denote the
      year modulo 100. */
  lemma PaddedTwo(year: int)
    ensures |Padded(year % 100, 2)| == 2
    ensures DecimalValue(Padded(year % 100, 2)) == year % 100
  {
    assert Pow10(2) == 100;
    DecimalLength(year % 100, 2);
    PaddedDenotes(year % 100, 2);
  }

  /** `pad`: start from the digits and prepend "0" while the string is short. */
  method Pad(i: nat, size: nat) returns (s: string)
    ensures s == Padded(i, size)
  {
    s := Decimal(i);
    ghost var k := 0;
    while |s| < size
      invariant s == Zeros(k) + Decimal(i)
      invariant k > 0 ==> |s| <= size
      decreases size - |s|
    {
      s := "0" + s;
      k := k + 1;
    }
  }

  // ---------------------------------------------------------------------------
  // The field sequence.

  /** The codes of the three fields that open `mezok`. */
  const HeaderCodes: seq<string> := ["0A0001C0001AA", "0A0001E001A", "0A0001E002A"]

  /** The three fields that open `mezok`: the employer's tax number, name and phone. */
  const HeaderFields: seq<Field> := [
    Field(HeaderCodes[0], "23127182215"),
    Field(HeaderCodes[1], "Mezei Istvánné"),
    Field(HeaderCodes[2], "06305236153")
  ]

  /** The code suffixes of a worker's eight fields, in output order. */
  const Suffixes: seq<string> :=
    ["C0001AA", "C0002AA", "C0003AA", "D0005AA", "D0007AA", "A001A", "D0009AA", "D0008AA"]

  /** A suffix starts with a letter, and the eight suffixes differ pairwise. */
  lemma SuffixFacts(s: nat, t: nat)
    requires s < 8 && t < 8
    ensures |Suffixes[s]| >= 1 && !IsDigit(Suffixes[s][0])
    ensures Suffixes[s] == Suffixes[t] ==> s == t
  {
  }

  /** The `eazon` code of the field with suffix `suffix` of the worker at 1-based position `p`. */
  function Code(p: nat, suffix: string): string {
    "0B" + Padded(p, 4) + suffix
  }

  /** The report date, `year`, `pad(month, 2)`, `pad(day, 2)`. */
  function DateText(date: Date): string {
    IntToString(date.year) + Padded(date.month, 2) + Padded(date.day, 2)
  }

  /** The eight fields of the worker at 0-based position `i`: name, tax number,
      TAJ number, type "U" (new registration), type "03", record id, validity
      "1", report date. */
  function WorkerFields(i: nat, w: Worker, date: Date): (fs: seq<Field>)
    ensures |fs| == 8
  {
    var p := i + 1;
    [ Field(Code(p, Suffixes[0]), w.name),
      Field(Code(p, Suffixes[1]), w.taxnumber),
      Field(Code(p, Suffixes[2]), w.taj),
      Field(Code(p, Suffixes[3]), "U"),
      Field(Code(p, Suffixes[4]), "03"),
      Field(Code(p, Suffixes[5]), Decimal(p)),
      Field(Code(p, Suffixes[6]), "1"),
      Field(Code(p, Suffixes[7]), DateText(date)) ]
  }

  /** Field `s` of a worker carries suffix `s`. */
  lemma WorkerFieldCode(i: nat, w: Worker, date: Date, s: nat)
    requires s < 8
    ensures WorkerFields(i, w, date)[s].code == Code(i + 1, Suffixes[s])
  {
    var fs := WorkerFields(i, w, date);
    if s == 0 { assert fs[0].code == Code(i + 1, Suffixes[0]); }
    else if s == 1 { assert fs[1].code == Code(i + 1, Suffixes[1]); }
    else if s == 2 { assert fs[2].code == Code(i + 1, Suffixes[2]); }
    else if s == 3 { assert fs[3].code == Code(i + 1, Suffixes[3]); }
    else if s == 4 { assert fs[4].code == Code(i + 1, Suffixes[4]); }
    else if s == 5 { assert fs[5].code == Code(i + 1, Suffixes[5]); }
    else if s == 6 { assert fs[6].code == Code(i + 1, Suffixes[6]); }
    else { assert fs[7].code == Code(i + 1, Suffixes[7]); }
  }

  /** The fields of all workers, worker by worker in input order. */
  function Blocks(ws: seq<Worker>, date: Date): (r: seq<Field>)
    ensures |r| == 8 * |ws|
  {
    if ws == [] then []
    else Blocks(ws[..|ws| - 1], date) + WorkerFields(|ws| - 1, ws[|ws| - 1], date)
  }

  /** Every field of `mezok`, in order. */
  function Fields(ws: seq<Worker>, date: Date): (r: seq<Field>)
    ensures |r| == 3 + 8 * |ws|
    ensures r[..3] == HeaderFields
    ensures forall k :: 3 <= k < |r| ==> r[k] == Blocks(ws, date)[k - 3]
  {
    HeaderFields + Blocks(ws, date)
  }

  /** The block of eight fields at offset `8 * i` is the `i`-th worker's. */
  lemma {:induction false} BlockAt(ws: seq<Worker>, date: Date, i: nat)
    requires i < |ws|
    ensures Blocks(ws, date)[8 * i .. 8 * i + 8] == WorkerFields(i, ws[i], date)
  {
    var init := ws[..|ws| - 1];
    var a, b := Blocks(init, date), WorkerFields(|ws| - 1, ws[|ws| - 1], date);
    assert Blocks(ws, date) == a + b;
    if i < |ws| - 1 {
      BlockAt(init, date, i);
      assert init[i] == ws[i];
      SliceOfAppendLeft(a, b, 8 * i, 8 * i + 8);
    } else {
      SliceOfAppendRight(a, b, 0, 8);
      assert b[0..8] == b;
    }
  }

  lemma SliceOfAppendLeft(a: seq<Field>, b: seq<Field>, x: nat, y: nat)
    requires x <= y <= |a|
    ensures (a + b)[x..y] == a[x..y]
  {
  }

  lemma SliceOfAppendRight(a: seq<Field>, b: seq<Field>, x: nat, y: nat)
    requires x <= y <= |b|
    ensures (a + b)[|a| + x .. |a| + y] == b[x..y]
  {
  }

  /** The texts of a worker's fields, in order: name, tax number and TAJ copied
      as they are, "U", "03", the 1-based position, "1", the date. */
  lemma WorkerTexts(ws: seq<Worker>, date: Date, i: nat)
    requires i < |ws|
    ensures var f, b := Fields(ws, date), 3 + 8 * i;
      && f[b].text == ws[i].name && f[b + 1].text == ws[i].taxnumber && f[b + 2].text == ws[i].taj
      && f[b + 3].text == "U" && f[b + 4].text == "03" && f[b + 5].text == Decimal(i + 1)
      && f[b + 6].text == "1" && f[b + 7].text == DateText(date)
  {
    FieldsBlockAt(ws, date, i);
    SliceAt(Fields(ws, date), 3 + 8 * i, WorkerFields(i, ws[i], date));
    WorkerFieldTexts(i, ws[i], date);
  }

  lemma WorkerFieldTexts(i: nat, w: Worker, date: Date)
    ensures var fs := WorkerFields(i, w, date);
      && fs[0].text == w.name && fs[1].text == w.taxnumber && fs[2].text == w.taj
      && fs[3].text == "U" && fs[4].text == "03" && fs[5].text == Decimal(i + 1)
      && fs[6].text == "1" && fs[7].text == DateText(date)
  {
  }

  /** The eight fields at offset `3 + 8 * i` of `mezok` are the `i`-th worker's. */
  lemma FieldsBlockAt(ws: seq<Worker>, date: Date, i: nat)
    requires i < |ws|
    ensures 3 + 8 * i + 8 <= |Fields(ws, date)|
    ensures Fields(ws, date)[3 + 8 * i .. 3 + 8 * i + 8] == WorkerFields(i, ws[i], date)
  {
    BlockAt(ws, date, i);
    var f, bl := Fields(ws, date), Blocks(ws, date);
    assert f == HeaderFields + bl;
    SliceOfAppendRight(HeaderFields, bl, 8 * i, 8 * i + 8);
  }

  lemma ElementOfSlice(f: seq<Field>, b: nat, fs: seq<Field>, k: nat, s: nat)
    requires b + |fs| <= |f| && f[b..b + |fs|] == fs && k == b + s && s < |fs|
    ensures f[k] == fs[s]
  {
    assert f[k] == f[b..b + |fs|][s];
  }

  lemma SliceAt(f: seq<Field>, b: nat, fs: seq<Field>)
    requires b + 8 <= |f| && f[b..b + 8] == fs
    ensures |fs| == 8 && forall s :: 0 <= s < 8 ==> f[b + s] == fs[s]
  {
    forall s | 0 <= s < 8 ensures f[b + s] == fs[s] {
      assert f[b + s] == f[b..b + 8][s];
    }
  }

  /** The number of digits a string starts with. */
  function LeadingDigits(s: string): (n: nat)
    ensures n <= |s|
  {
    if s == [] || !IsDigit(s[0]) then 0 else 1 + LeadingDigits(s[1..])
  }

  /** In a digit string followed by a string that starts with a non-digit, the
      digits end exactly where the first part does. */
  lemma {:induction false} DigitsThenOther(a: string, x: string)
    requires AllDigits(a)
    requires |x| >= 1 && !IsDigit(x[0])
    ensures LeadingDigits(a + x) == |a|
  {
    if a == [] {
      assert a + x == x;
    } else {
      assert (a + x)[1..] == a[1..] + x;
      DigitsThenOther(a[1..], x);
    }
  }

  lemma DropPrefix(pre: string, a: string, x: string)
    ensures (pre + a + x)[|pre|..] == a + x
  {
  }

  /** The position of the first occurrence of `x` in `xs`, or `|xs|`. */
  function IndexOf(xs: seq<string>, x: string): (n: nat)
    ensures n <= |xs|
    ensures n < |xs| ==> xs[n] == x
    ensures forall m :: 0 <= m < n ==> xs[m] != x
  {
    if xs == [] then 0 else if xs[0] == x then 0 else 1 + IndexOf(xs[1..], x)
  }

  /** Reads back what a code identifies: `(p, s)` for the worker code with
      position `p` and suffix `Suffixes[s]`, `(0, h)` for header code `h`. */
  function CodeKey(c: string): (nat, nat) {
    if |c| >= 2 && c[1] == 'B' then
      var n := LeadingDigits(c[2..]);
      (DecimalValue(c[2..2 + n]), IndexOf(Suffixes, c[2 + n..]))
    else
      (0, IndexOf(HeaderCodes, c))
  }

  /** The suffixes are told apart by their index. */
  lemma SuffixIndex(s: nat)
    requires s < 8
    ensures IndexOf(Suffixes, Suffixes[s]) == s
  {
    var n := IndexOf(Suffixes, Suffixes[s]);
    if n < 8 {
      SuffixFacts(n, s);
    }
  }

  /** A worker code decodes to its position and suffix. */
  lemma WorkerCodeKey(p: nat, s: nat)
    requires s < 8
    ensures CodeKey(Code(p, Suffixes[s])) == (p, s)
  {
    var a, x := Padded(p, 4), Suffixes[s];
    var c := Code(p, x);
    SuffixFacts(s, s);
    PaddedDenotes(p, 4);
    DropPrefix("0B", a, x);
    DigitsThenOther(a, x);
    assert c[2..][..|a|] == a;
    assert c[2 + |a|..] == x;
    SuffixIndex(s);
  }

  /** A header code decodes to its index. */
  lemma HeaderCodeKey(h: nat)
    requires h < 3
    ensures CodeKey(HeaderFields[h].code) == (0, h)
  {
    var c := HeaderCodes;
    assert |c[0]| == 13 && |c[1]| == 11 && |c[2]| == 11;
    assert c[1][9] == '1' && c[2][9] == '2';
    assert c[h][1] == 'A';
    if h == 0 {
      assert IndexOf(c, c[0]) == 0;
    } else if h == 1 {
      assert c[0] != c[1];
      assert IndexOf(c, c[1]) == 1 + IndexOf(c[1..], c[1]);
    } else {
      assert c[0] != c[2] && c[1] != c[2];
      assert IndexOf(c, c[2]) == 1 + IndexOf(c[1..], c[2]);
      assert IndexOf(c[1..], c[2]) == 1 + IndexOf(c[2..], c[2]);
    }
  }

  lemma DivEight(t: nat) returns (q: nat, r: nat)
    ensures t == 8 * q + r && r < 8
  {
    q, r := t / 8, t % 8;
  }

  /** Field `k` past the header is field `s` of the worker at position `i`. */
  lemma FieldCodeAt(ws: seq<Worker>, date: Date, k: nat) returns (i: nat, s: nat)
    requires 3 <= k < |Fields(ws, date)|
    ensures k == 3 + 8 * i + s && s < 8
    ensures Fields(ws, date)[k].code == Code(i + 1, Suffixes[s])
  {
    i, s := DivEight(k - 3);
    assert i < |ws|;
    FieldsBlockAt(ws, date, i);
    ElementOfSlice(Fields(ws, date), 3 + 8 * i, WorkerFields(i, ws[i], date), k, s);
    WorkerFieldCode(i, ws[i], date, s);
  }

  /** The code of field `k` decodes to `(0, k)` in the header and to
      `(i + 1, s)` for field `s` of worker `i`. */
  lemma FieldKey(ws: seq<Worker>, date: Date, k: nat) returns (p: nat, s: nat)
    requires k < |Fields(ws, date)|
    ensures CodeKey(Fields(ws, date)[k].code) == (p, s)
    ensures k < 3 ==> p == 0 && s == k
    ensures k >= 3 ==> p >= 1 && s < 8 && k == 3 + 8 * (p - 1) + s
  {
    if k < 3 {
      p, s := 0, k;
      assert Fields(ws, date)[k] == HeaderFields[k];
      HeaderCodeKey(k);
    } else {
      var i;
      i, s := FieldCodeAt(ws, date, k);
      p := i + 1;
      WorkerCodeKey(p, s);
    }
  }

  /** Every `mezo` of the export carries its own `eazon` code. */
  lemma CodesDistinct(ws: seq<Worker>, date: Date, j: nat, k: nat)
    requires j < k < |Fields(ws, date)|
    ensures Fields(ws, date)[j].code != Fields(ws, date)[k].code
  {
    var pj, sj := FieldKey(ws, date, j);
    var pk, sk := FieldKey(ws, date, k);
  }

  /** Only the name, tax number and TAJ number of a worker reach the output. */
  lemma {:induction false} OnlyThreeFieldsMatter(ws: seq<Worker>, vs: seq<Worker>, date: Date)
    requires |ws| == |vs|
    requires forall i :: 0 <= i < |ws| ==>
      ws[i].name == vs[i].name && ws[i].taxnumber == vs[i].taxnumber && ws[i].taj == vs[i].taj
    ensures Fields(ws, date) == Fields(vs, date)
  {
    if ws != [] {
      OnlyThreeFieldsMatter(ws[..|ws| - 1], vs[..|vs| - 1], date);
    }
  }

  // ---------------------------------------------------------------------------
  // The document.

  const Prolog := "<?xml version=\"1.0\" encoding=\"UTF-8\"?>"

  const Namespace := "http://www.apeh.hu/abev/nyomtatvanyok/2005/01"

  function Leaf(name: string, text: string): Element {
    Element(name, [], text, [])
  }

  function Mezo(f: Field): Element {
    Element("mezo", [Attr("eazon", f.code)], f.text, [])
  }

  function Mezos(fs: seq<Field>): (es: seq<Element>)
    ensures |es| == |fs|
  {
    seq(|fs|, k requires 0 <= k < |fs| => Mezo(fs[k]))
  }

  /** The form header: the form id is the two-digit year followed by "T1042E". */
  function FormInfo(date: Date): Element {
    Element("nyomtatvanyinformacio", [], "", [
      Leaf("nyomtatvanyazonosito", Padded(date.year % 100, 2) + "T1042E"),
      Leaf("nyomtatvanyverzio", "1.0"),
      Element("adozo", [], "", [Leaf("adoszam", "23127182215")]),
      Leaf("megjegyzes", "Bejelentés")
    ])
  }

  /** The whole export: the root `nyomtatvanyok` in the form namespace holds one
      `nyomtatvany`, which holds the header and then `mezok`. */
  function Rendered(ws: seq<Worker>, date: Date): Document {
    Document(Prolog,
      Element("nyomtatvanyok", [Attr("xmlns", Namespace)], "", [
        Element("nyomtatvany", [], "", [
          FormInfo(date),
          Element("mezok", [], "", Mezos(Fields(ws, date)))
        ])
      ]))
  }

  /** The `mezok` element of a document. */
  function Mezok(doc: Document): Element
    requires |doc.root.children| == 1 && |doc.root.children[0].children| == 2
  {
    doc.root.children[0].children[1]
  }

  lemma MezosAppend(a: seq<Field>, b: seq<Field>)
    ensures Mezos(a + b) == Mezos(a) + Mezos(b)
  {
    var l, r := Mezos(a + b), Mezos(a) + Mezos(b);
    forall k | 0 <= k < |l| ensures l[k] == r[k] {
      if k < |a| {
        assert (a + b)[k] == a[k];
      } else {
        assert (a + b)[k] == b[k - |a|];
      }
    }
  }

  /** Rendering one more worker appends that worker's eight fields. */
  lemma FieldsSnoc(ws: seq<Worker>, date: Date, i: nat)
    requires i < |ws|
    ensures Fields(ws[..i + 1], date) == Fields(ws[..i], date) + WorkerFields(i, ws[i], date)
  {
    assert ws[..i + 1][..i] == ws[..i];
    assert Blocks(ws[..i + 1], date) == Blocks(ws[..i], date) + WorkerFields(i, ws[i], date);
  }

  /** The eight `mezo` elements the loop body builds for the worker at position
      `i` are the rendering of that worker's fields. */
  lemma BlockRendered(i: nat, w: Worker, date: Date, p: string, month: string, day: string)
    requires p == Padded(i + 1, 4) && month == Padded(date.month, 2) && day == Padded(date.day, 2)
    ensures [
        Mezo(Field("0B" + p + "C0001AA", w.name)),
        Mezo(Field("0B" + p + "C0002AA", w.taxnumber)),
        Mezo(Field("0B" + p + "C0003AA", w.taj)),
        Mezo(Field("0B" + p + "D0005AA", "U")),
        Mezo(Field("0B" + p + "D0007AA", "03")),
        Mezo(Field("0B" + p + "A001A", Decimal(i + 1))),
        Mezo(Field("0B" + p + "D0009AA", "1")),
        Mezo(Field("0B" + p + "D0008AA", IntToString(date.year) + month + day))
      ] == Mezos(WorkerFields(i, w, date))
  {
  }

  /** The `mezok` of the export holds one `mezo` per field. */
  lemma RenderedMezok(ws: seq<Worker>, date: Date)
    ensures |Mezok(Rendered(ws, date)).children| == 3 + 8 * |ws|
  {
  }

  /** One iteration of the `render_xml` loop: the eight `mezo` elements of the
      worker at 0-based position `i`. */
  method WorkerMezos(i: nat, worker: Worker, date: Date) returns (block: seq<Element>)
    ensures block == Mezos(WorkerFields(i, worker, date))
  {
    var p := Pad(i + 1, 4);
    var month := Pad(date.month, 2);
    var day := Pad(date.day, 2);
    block := [
      Mezo(Field("0B" + p + "C0001AA", worker.name)),
      Mezo(Field("0B" + p + "C0002AA", worker.taxnumber)),
      Mezo(Field("0B" + p + "C0003AA", worker.taj)),
      Mezo(Field("0B" + p + "D0005AA", "U")),
      Mezo(Field("0B" + p + "D0007AA", "03")),
      Mezo(Field("0B" + p + "A001A", Decimal(i + 1))),
      Mezo(Field("0B" + p + "D0009AA", "1")),
      Mezo(Field("0B" + p + "D0008AA", IntToString(date.year) + month + day))
    ];
    BlockRendered(i, worker, date, p, month, day);
  }

  /** The `nyomtatvanyinformacio` element `render_xml` builds after the loop. */
  method FormHeader(date: Date) returns (info: Element)
    ensures info == FormInfo(date)
  {
    var year := Pad(date.year % 100, 2);
    info := Element("nyomtatvanyinformacio", [], "", [
      Leaf("nyomtatvanyazonosito", year + "T1042E"),
      Leaf("nyomtatvanyverzio", "1.0"),
      Element("adozo", [], "", [Leaf("adoszam", "23127182215")]),
      Leaf("megjegyzes", "Bejelentés")
    ]);
  }

  /** The document is assembled from the form header and `mezok`. */
  lemma RenderedOf(ws: seq<Worker>, date: Date, info: Element, mezok: Element)
    requires info == FormInfo(date)
    requires mezok == Element("mezok", [], "", Mezos(Fields(ws, date)))
    ensures Rendered(ws, date) == Document(Prolog,
      Element("nyomtatvanyok", [Attr("xmlns", Namespace)], "", [Element("nyomtatvany", [], "", [info, mezok])]))
  {
  }

  /** `render_xml`: build `mezok` worker by worker, then wrap it in the form. */
  method RenderXml(workers: seq<Worker>, date: Date) returns (doc: Document)
    ensures doc == Rendered(workers, date)
  {
    var mezok := Element("mezok", [], "", Mezos(HeaderFields));
    var i := 0;
    ghost var done := HeaderFields;
    while i < |workers|
      invariant 0 <= i <= |workers|
      invariant done == Fields(workers[..i], date)
      invariant mezok == Element("mezok", [], "", Mezos(done))
    {
      var worker := workers[i];
      var block := WorkerMezos(i, worker, date);
      FieldsSnoc(workers, date, i);
      MezosAppend(done, WorkerFields(i, worker, date));
      mezok := mezok.(children := mezok.children + block);
      done := done + WorkerFields(i, worker, date);
      i := i + 1;
    }
    assert workers[..i] == workers;
    var info := FormHeader(date);
    RenderedOf(workers, date, info, mezok);
    var nyomtatvany := Element("nyomtatvany", [], "", [info, mezok]);
    var root := Element("nyomtatvanyok", [Attr("xmlns", Namespace)], "", [nyomtatvany]);
    doc := Document(Prolog, root);
  }
}
