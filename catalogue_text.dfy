/**
 * The YAML text of a catalogue as the generator writes it: a header naming the units of
 * the functionalities (`F`) and resources (`R`), then one implementation block per row,
 * named `model0`, `model1`, ..., each listing its `f_max` and `r_min` quantities; and the
 * `strip()`-plus-newline normalisation `write_yaml` applies before writing.
 */
module CatalogueText {
  import opened DecimalText

  /** A quantity such as `"250000 USD"`. */
  datatype Quantity = Quantity(value: nat, unit: string)

  /** One implementation: what it provides and what it requires. */
  datatype Entry = Entry(fMax: seq<Quantity>, rMin: seq<Quantity>)

  /** A catalogue's title and declared units. */
  datatype Schema = Schema(title: string, functionalities: seq<string>, resources: seq<string>)

  /** The entry gives one quantity per declared unit, in the declared units and order. */
  predicate Conforms(e: Entry, s: Schema) {
    && |e.fMax| == |s.functionalities|
    && (forall i :: 0 <= i < |e.fMax| ==> e.fMax[i].unit == s.functionalities[i])
    && |e.rMin| == |s.resources|
    && (forall i :: 0 <= i < |e.rMin| ==> e.rMin[i].unit == s.resources[i])
  }

  /** `''.join(parts)` */
  function Concat(parts: seq<string>): string {
    if parts == [] then "" else Concat(parts[..|parts| - 1]) + parts[|parts| - 1]
  }

  /** The key `model{k}`. */
  function ModelName(k: nat): string {
    "model" + NatToString(k)
  }

  /** Different rows get different keys. */
  lemma ModelNameInjective(j: nat, k: nat)
    requires ModelName(j) == ModelName(k)
    ensures j == k
  {
    assert NatToString(j) == ModelName(j)[5..];
    NatToStringInjective(j, k);
  }

  /** `      - "{value} {unit}"` and a newline. */
  function QuantityLine(q: Quantity): string {
    "      - \"" + NatToString(q.value) + " " + q.unit + "\"\n"
  }

  function QuantityLines(qs: seq<Quantity>): string {
    Concat(seq(|qs|, i requires 0 <= i < |qs| => QuantityLine(qs[i])))
  }

  /** The implementation block of row `k`. */
  function EntryText(k: nat, e: Entry): string {
    "  " + ModelName(k) + ":\n    f_max:\n" + QuantityLines(e.fMax) + "    r_min:\n" + QuantityLines(e.rMin)
  }

  /** A block-list item `  - u`. */
  function UnitItem(u: string): string {
    "  - " + u + "\n"
  }

  /** A unit list: a flow list `[u]` for one unit, else a block list. */
  function UnitList(key: string, units: seq<string>): string {
    if |units| == 1 then key + ": [" + units[0] + "]\n"
    else key + ":\n" + Concat(seq(|units|, i requires 0 <= i < |units| => UnitItem(units[i])))
  }

  function HeaderText(s: Schema): string {
    "# " + s.title + "\n" + UnitList("F", s.functionalities) + UnitList("R", s.resources) + "\nimplementations:\n"
  }

  function EntryTexts(es: seq<Entry>): (r: seq<string>)
    ensures |r| == |es| && forall k :: 0 <= k < |es| ==> r[k] == EntryText(k, es[k])
  {
    seq(|es|, k requires 0 <= k < |es| => EntryText(k, es[k]))
  }

  /** The string a generator returns. */
  function Text(s: Schema, es: seq<Entry>): string {
    HeaderText(s) + Concat(EntryTexts(es)) + "\n"
  }

  /** Number of occurrences of `c` in `s`. */
  function Occurrences(s: string, c: char): nat {
    if s == [] then 0 else Occurrences(s[..|s| - 1], c) + (if s[|s| - 1] == c then 1 else 0)
  }

  lemma {:induction false} OccurrencesAppend(a: string, b: string, c: char)
    ensures Occurrences(a + b, c) == Occurrences(a, c) + Occurrences(b, c)
    decreases |b|
  {
    if b == [] {
      assert a + b == a;
    } else {
      assert (a + b)[..|a + b| - 1] == a + b[..|b| - 1];
      OccurrencesAppend(a, b[..|b| - 1], c);
    }
  }

  /** A string without `c` has no occurrence of it. */
  lemma {:induction false} OccurrencesNone(s: string, c: char)
    requires c !in s
    ensures Occurrences(s, c) == 0
  {
    if s != [] {
      assert c !in s[..|s| - 1];
      OccurrencesNone(s[..|s| - 1], c);
    }
  }

  /** A quantity takes exactly one line, provided its unit has no line break. */
  lemma QuantityLineCount(q: Quantity)
    requires '\n' !in q.unit
    ensures Occurrences(QuantityLine(q), '\n') == 1
  {
    var digits := NatToString(q.value);
    var p := "      - \"" + digits + " " + q.unit + "\"";
    assert QuantityLine(q) == p + "\n";
    assert '\n' !in p;
    OccurrencesNone(p, '\n');
    OccurrencesAppend(p, "\n", '\n');
    assert "\n"[..0] == "";
  }

  /**
   * A quantity block has one line per quantity, so an `r_min` block of a conforming entry
   * has as many lines as the schema declares resources.
   */
  lemma {:induction false} QuantityLinesCount(qs: seq<Quantity>)
    requires forall i :: 0 <= i < |qs| ==> '\n' !in qs[i].unit
    ensures Occurrences(QuantityLines(qs), '\n') == |qs|
  {
    if qs != [] {
      var init := qs[..|qs| - 1];
      var lines := seq(|qs|, i requires 0 <= i < |qs| => QuantityLine(qs[i]));
      assert lines[..|qs| - 1] == seq(|init|, i requires 0 <= i < |init| => QuantityLine(init[i]));
      QuantityLinesCount(init);
      var q := qs[|qs| - 1];
      QuantityLineCount(q);
      assert QuantityLines(qs) == QuantityLines(init) + QuantityLine(q);
      OccurrencesAppend(QuantityLines(init), QuantityLine(q), '\n');
    }
  }

  /** A conforming entry lists exactly as many resource lines as its schema declares resources. */
  lemma ResourceLines(e: Entry, s: Schema)
    requires Conforms(e, s)
    requires forall i :: 0 <= i < |s.resources| ==> '\n' !in s.resources[i]
    ensures Occurrences(QuantityLines(e.rMin), '\n') == |s.resources|
  {
    QuantityLinesCount(e.rMin);
  }

  /** Python's `str.isspace()` for one character. */
  predicate IsSpace(c: char) {
    c == ' ' || ('\t' <= c <= '\r') || ('\U{1c}' <= c <= '\U{1f}') || c == '\U{85}' || c == '\U{a0}'
    || c == '\U{1680}' || ('\U{2000}' <= c <= '\U{200a}') || c == '\U{2028}' || c == '\U{2029}'
    || c == '\U{202f}' || c == '\U{205f}' || c == '\U{3000}'
  }

  predicate AllSpace(s: string) {
    forall i :: 0 <= i < |s| ==> IsSpace(s[i])
  }

  function LStrip(s: string): string {
    if s != [] && IsSpace(s[0]) then LStrip(s[1..]) else s
  }

  function RStrip(s: string): string {
    if s != [] && IsSpace(s[|s| - 1]) then RStrip(s[..|s| - 1]) else s
  }

  /** `s.strip()` */
  function Strip(s: string): string {
    RStrip(LStrip(s))
  }

  /** The text `write_yaml` writes for `text`. */
  function FileText(text: string): string {
    Strip(text) + "\n"
  }

  lemma {:induction false} LStripSpec(s: string) returns (i: nat)
    ensures i <= |s| && LStrip(s) == s[i..] && AllSpace(s[..i])
    ensures LStrip(s) == [] || !IsSpace(LStrip(s)[0])
  {
    if s != [] && IsSpace(s[0]) {
      var i' := LStripSpec(s[1..]);
      i := i' + 1;
      assert s[i..] == s[1..][i'..];
      assert s[..i] == [s[0]] + s[1..][..i'];
    } else {
      i := 0;
    }
  }

  lemma {:induction false} RStripSpec(s: string) returns (j: nat)
    ensures j <= |s| && RStrip(s) == s[..j] && AllSpace(s[j..])
    ensures RStrip(s) == [] || !IsSpace(RStrip(s)[|RStrip(s)| - 1])
  {
    if s != [] && IsSpace(s[|s| - 1]) {
      j := RStripSpec(s[..|s| - 1]);
      assert s[..|s| - 1][..j] == s[..j];
      assert s[j..] == s[..|s| - 1][j..] + [s[|s| - 1]];
    } else {
      j := |s|;
    }
  }

  /** Stripping keeps the first character when it is not whitespace. */
  lemma RStripKeepsFirst(s: string)
    requires s != [] && !IsSpace(s[0])
    ensures RStrip(s) != [] && RStrip(s)[0] == s[0]
  {
    var j := RStripSpec(s);
  }

  /**
   * `strip()` removes exactly the leading and trailing whitespace: `text` is whitespace,
   * then the stripped text, then whitespace, and the stripped text neither starts nor
   * ends with whitespace.
   */
  lemma StripSpec(text: string) returns (i: nat, j: nat)
    ensures i <= j <= |text| && Strip(text) == text[i..j]
    ensures AllSpace(text[..i]) && AllSpace(text[j..])
    ensures Strip(text) == [] || (!IsSpace(Strip(text)[0]) && !IsSpace(Strip(text)[|Strip(text)| - 1]))
  {
    i := LStripSpec(text);
    var l := LStrip(text);
    var j' := RStripSpec(l);
    j := i + j';
    assert text[i..j] == l[..j'];
    assert text[j..] == l[j'..];
    if Strip(text) != [] {
      RStripKeepsFirst(l);
    }
  }

  /**
   * The written file ends with exactly one newline: a single newline for blank text, else
   * a character that is not whitespace, then the newline.
   */
  lemma FileTextEnding(text: string)
    ensures var f := FileText(text);
      f[|f| - 1] == '\n' && (|f| == 1 || !IsSpace(f[|f| - 2]))
  {
    var i, j := StripSpec(text);
  }

  /** Whitespace-only input strips to nothing. */
  lemma {:induction false} StripOfSpace(s: string)
    requires AllSpace(s)
    ensures LStrip(s) == [] && RStrip(s) == []
  {
    if s != [] {
      StripOfSpace(s[1..]);
      StripOfSpace(s[..|s| - 1]);
    }
  }

  /** Text with no whitespace at either end is left as it is. */
  lemma StripOfTrimmed(s: string)
    requires s == [] || (!IsSpace(s[0]) && !IsSpace(s[|s| - 1]))
    ensures Strip(s) == s
  {
  }

  /** Normalising twice is normalising once. */
  lemma FileTextIdempotent(text: string)
    ensures FileText(FileText(text)) == FileText(text)
  {
    var i, j := StripSpec(text);
    var t := Strip(text);
    var f := FileText(text);
    if t == [] {
      StripOfSpace(f);
    } else {
      assert f[0] == t[0] && LStrip(f) == f;
      assert f[..|f| - 1] == t;
      assert RStrip(f) == RStrip(t);
      StripOfTrimmed(t);
    }
  }

  /** `t` ends with a line break that follows a character other than whitespace. */
  predicate EndsWithLine(t: string) {
    |t| >= 2 && t[|t| - 1] == '\n' && !IsSpace(t[|t| - 2])
  }

  lemma {:induction false} ConcatEndsWithLine(parts: seq<string>)
    requires parts != [] && EndsWithLine(parts[|parts| - 1])
    ensures EndsWithLine(Concat(parts))
  {
  }

  /** Every implementation block ends with a closing `"` or `:` and a line break. */
  lemma EntryTextEndsWithLine(k: nat, e: Entry)
    ensures EndsWithLine(EntryText(k, e))
  {
    var qs := e.rMin;
    if qs != [] {
      var lines := seq(|qs|, i requires 0 <= i < |qs| => QuantityLine(qs[i]));
      ConcatEndsWithLine(lines);
    }
  }

  /**
   * A text that starts with a visible character and ends in a blank line after a full
   * line is written without its last newline.
   */
  lemma FileTextOfLineEnded(t: string)
    requires |t| >= 3 && !IsSpace(t[0]) && t[|t| - 1] == '\n' && EndsWithLine(t[..|t| - 1])
    ensures FileText(t) == t[..|t| - 1]
  {
    var b := t[..|t| - 1];
    var u := t[..|t| - 2];
    assert b[..|b| - 1] == u;
    assert LStrip(t) == t;
    assert RStrip(t) == RStrip(b);
    assert RStrip(b) == RStrip(u);
    assert RStrip(u) == u;
    assert b == u + "\n";
  }

  /**
   * What `write_yaml` writes for a generated catalogue with at least one implementation:
   * the generated text without its last newline (the text starts with `#` and ends in a
   * blank line, which `strip()` removes).
   */
  lemma WrittenCatalogue(s: Schema, es: seq<Entry>)
    requires es != []
    ensures var t := Text(s, es);
      FileText(t) == t[..|t| - 1] && EndsWithLine(FileText(t))
  {
    var parts := EntryTexts(es);
    EntryTextEndsWithLine(|es| - 1, es[|es| - 1]);
    ConcatEndsWithLine(parts);
    HeaderTextStart(s);
    WrittenText(HeaderText(s), Concat(parts));
  }

  /** A header followed by blocks that end with a full line, and a blank line. */
  lemma WrittenText(h: string, c: string)
    requires |h| > 0 && h[0] == '#' && EndsWithLine(c)
    ensures FileText(h + c + "\n") == h + c && EndsWithLine(h + c)
  {
    AppendEndsWithLine(h, c);
    var t := h + c + "\n";
    assert t[0] == '#' && t[..|t| - 1] == h + c;
    FileTextOfLineEnded(t);
  }

  lemma HeaderTextStart(s: Schema)
    ensures |HeaderText(s)| > 0 && HeaderText(s)[0] == '#'
  {
    var rest := s.title + "\n" + UnitList("F", s.functionalities) + UnitList("R", s.resources) + "\nimplementations:\n";
    assert HeaderText(s) == "# " + rest;
  }

  lemma AppendEndsWithLine(a: string, b: string)
    requires EndsWithLine(b)
    ensures EndsWithLine(a + b)
  {
    assert (a + b)[|a + b| - 1] == b[|b| - 1] && (a + b)[|a + b| - 2] == b[|b| - 2];
  }
}
