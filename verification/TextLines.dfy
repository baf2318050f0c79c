/** Text made of lines. */
module TextLines {

  ghost predicate OneLine(line: string) {
    forall i :: 0 <= i < |line| ==> line[i] != '\n'
  }

  /** Every line followed by a newline. */
  function Terminated(lines: seq<string>): string {
    if lines == [] then "" else lines[0] + "\n" + Terminated(lines[1..])
  }

  /** Newline-terminated lines have one reading. */
  lemma {:induction false} TerminatedIsInjective(a: seq<string>, b: seq<string>)
    requires forall i :: 0 <= i < |a| ==> OneLine(a[i])
    requires forall i :: 0 <= i < |b| ==> OneLine(b[i])
    requires Terminated(a) == Terminated(b)
    ensures a == b
    decreases |a|
  {
    if a != [] && b != [] {
      var x, y := a[0], b[0];
      var text := Terminated(a);
      assert text == x + "\n" + Terminated(a[1..]) == y + "\n" + Terminated(b[1..]);
      assert forall i :: 0 <= i < |x| ==> text[i] == x[i];
      assert forall i :: 0 <= i < |y| ==> text[i] == y[i];
      assert text[|x|] == '\n' && text[|y|] == '\n';
      assert |x| == |y|;
      assert x == text[..|x|] == y;
      assert Terminated(a[1..]) == text[|x| + 1..] == Terminated(b[1..]);
      TerminatedIsInjective(a[1..], b[1..]);
      assert a == [x] + a[1..] && b == [y] + b[1..];
    }
  }

  /** Python's two notions of a line: bytes.splitlines and str.splitlines. */
  datatype Splitting = ByteSplitting | TextSplitting

  predicate IsBreak(kind: Splitting, c: char) {
    || c == '\n' || c == '\r'
    || (kind.TextSplitting?
        && (|| '\U{000B}' <= c <= '\U{000C}' || '\U{001C}' <= c <= '\U{001E}'
            || c == '\U{0085}' || '\U{2028}' <= c <= '\U{2029}'))
  }

  ghost predicate NoBreak(kind: Splitting, line: string) {
    forall i :: 0 <= i < |line| ==> !IsBreak(kind, line[i])
  }

  /** The length of the first line. */
  function LineLength(kind: Splitting, raw: string): nat {
    if raw == "" || IsBreak(kind, raw[0]) then 0 else 1 + LineLength(kind, raw[1..])
  }

  lemma {:induction false} LineLengthFacts(kind: Splitting, raw: string)
    ensures LineLength(kind, raw) <= |raw|
    ensures forall i :: 0 <= i < LineLength(kind, raw) ==> !IsBreak(kind, raw[i])
    ensures LineLength(kind, raw) < |raw| ==> IsBreak(kind, raw[LineLength(kind, raw)])
  {
    if raw != "" && !IsBreak(kind, raw[0]) {
      LineLengthFacts(kind, raw[1..]);
    }
  }

  lemma {:induction false} LineLengthIs(kind: Splitting, raw: string, k: nat)
    requires k <= |raw| && forall i :: 0 <= i < k ==> !IsBreak(kind, raw[i])
    requires k < |raw| ==> IsBreak(kind, raw[k])
    ensures LineLength(kind, raw) == k
  {
    if k > 0 {
      LineLengthIs(kind, raw[1..], k - 1);
    }
  }

  /** Where the text goes on after a line break at k; "\r\n" is one break. */
  function AfterBreak(raw: string, k: nat): nat
    requires k < |raw|
  {
    if raw[k] == '\r' && k + 1 < |raw| && raw[k + 1] == '\n' then k + 2 else k + 1
  }

  /** splitlines() */
  function SplitLines(kind: Splitting, raw: string): seq<string>
    decreases |raw|
  {
    LineLengthFacts(kind, raw);
    var k := LineLength(kind, raw);
    if raw == "" then []
    else if k == |raw| then [raw]
    else [raw[..k]] + SplitLines(kind, raw[AfterBreak(raw, k)..])
  }

  /** The text is empty or its last line is terminated. */
  predicate EndsLine(kind: Splitting, raw: string) {
    raw == "" || IsBreak(kind, raw[|raw| - 1])
  }

  lemma SplitOneLine(kind: Splitting, text: string)
    requires NoBreak(kind, text) && text != ""
    ensures SplitLines(kind, text) == [text] && SplitLines(kind, text + "\n") == [text]
  {
    var whole := text + "\n";
    LineLengthIs(kind, text, |text|);
    LineLengthIs(kind, whole, |text|);
    assert whole[..|text|] == text && whole[AfterBreak(whole, |text|)..] == "";
  }

  /** The first line and where the text goes on do not depend on what follows. */
  lemma FirstLineStays(kind: Splitting, raw: string, tail: string, k: nat)
    requires tail != "" && tail[0] != '\n'
    requires k < |raw| && k == LineLength(kind, raw)
    ensures LineLength(kind, raw + tail) == k
    ensures AfterBreak(raw + tail, k) == AfterBreak(raw, k) <= |raw|
  {
    LineLengthFacts(kind, raw);
    LineLengthIs(kind, raw + tail, k);
  }

  lemma SlicesOfSum(raw: string, tail: string, k: nat, next: nat)
    requires k <= |raw| && next <= |raw|
    ensures (raw + tail)[..k] == raw[..k] && (raw + tail)[next..] == raw[next..] + tail
  {
  }

  lemma SplitAt(kind: Splitting, raw: string, k: nat, next: nat)
    requires k == LineLength(kind, raw) && k < |raw| && next == AfterBreak(raw, k)
    ensures SplitLines(kind, raw) == [raw[..k]] + SplitLines(kind, raw[next..])
  {
  }

  lemma SplitFirst(kind: Splitting, raw: string, tail: string)
    requires tail != "" && tail[0] != '\n'
    requires LineLength(kind, raw) < |raw|
    ensures var k := LineLength(kind, raw);
            AfterBreak(raw, k) <= |raw| &&
            SplitLines(kind, raw + tail) == [raw[..k]] + SplitLines(kind, raw[AfterBreak(raw, k)..] + tail)
  {
    var k := LineLength(kind, raw);
    FirstLineStays(kind, raw, tail, k);
    var next := AfterBreak(raw, k);
    SplitAt(kind, raw + tail, k, next);
    SlicesOfSum(raw, tail, k, next);
  }

  /** What adding a line does to the list of lines. */
  function Glue(lines: seq<string>, line: string): seq<string>
    requires lines != []
  {
    lines[..|lines| - 1] + [lines[|lines| - 1] + line]
  }

  /** A record written after a terminated line becomes a line of its own. */
  lemma {:induction false} SplitAppend(kind: Splitting, raw: string, line: string)
    requires NoBreak(kind, line) && line != "" && EndsLine(kind, raw)
    ensures SplitLines(kind, raw + (line + "\n")) == SplitLines(kind, raw) + [line]
    decreases |raw|
  {
    LineLengthFacts(kind, raw);
    var k := LineLength(kind, raw);
    if raw == "" {
      assert raw + (line + "\n") == line + "\n";
      SplitOneLine(kind, line);
    } else {
      var next := AfterBreak(raw, k);
      EndsLineAfter(kind, raw, next);
      SplitAppend(kind, raw[next..], line);
      SplitAppendStep(kind, raw, line, k, next);
    }
  }

  lemma SplitAppendStep(kind: Splitting, raw: string, line: string, k: nat, next: nat)
    requires k == LineLength(kind, raw) && k < |raw| && next == AfterBreak(raw, k)
    requires line != "" && NoBreak(kind, line)
    requires SplitLines(kind, raw[next..] + (line + "\n")) == SplitLines(kind, raw[next..]) + [line]
    ensures SplitLines(kind, raw + (line + "\n")) == SplitLines(kind, raw) + [line]
  {
    SplitFirst(kind, raw, line + "\n");
    SplitAt(kind, raw, k, next);
    Associative([raw[..k]], SplitLines(kind, raw[next..]), [line]);
  }

  lemma Associative(a: seq<string>, b: seq<string>, c: seq<string>)
    ensures a + (b + c) == (a + b) + c
  {
  }

  /** Written after an unterminated line, it is glued to that line. */
  lemma {:induction false} SplitGlue(kind: Splitting, raw: string, line: string)
    requires NoBreak(kind, line) && line != "" && !EndsLine(kind, raw)
    ensures var lines := SplitLines(kind, raw);
            && lines != [] && lines[|lines| - 1] != ""
            && SplitLines(kind, raw + (line + "\n")) == Glue(lines, line)
    decreases |raw|
  {
    LineLengthFacts(kind, raw);
    var k := LineLength(kind, raw);
    if k == |raw| {
      GlueOneLine(kind, raw, line);
    } else {
      var next := AfterBreak(raw, k);
      EndsLineAfter(kind, raw, next);
      SplitGlue(kind, raw[next..], line);
      SplitGlueStep(kind, raw, line, k, next);
    }
  }

  lemma SplitGlueStep(kind: Splitting, raw: string, line: string, k: nat, next: nat)
    requires k == LineLength(kind, raw) && k < |raw| && next == AfterBreak(raw, k)
    requires line != "" && NoBreak(kind, line)
    requires var rest := SplitLines(kind, raw[next..]);
             && rest != [] && rest[|rest| - 1] != ""
             && SplitLines(kind, raw[next..] + (line + "\n")) == Glue(rest, line)
    ensures var lines := SplitLines(kind, raw);
            && lines != [] && lines[|lines| - 1] != ""
            && SplitLines(kind, raw + (line + "\n")) == Glue(lines, line)
  {
    var rest := SplitLines(kind, raw[next..]);
    SplitFirst(kind, raw, line + "\n");
    SplitAt(kind, raw, k, next);
    GlueTail(raw[..k], rest, line);
  }

  lemma GlueOneLine(kind: Splitting, raw: string, line: string)
    requires NoBreak(kind, raw) && raw != "" && NoBreak(kind, line)
    ensures SplitLines(kind, raw) == [raw] && SplitLines(kind, raw + (line + "\n")) == Glue([raw], line)
  {
    assert raw + (line + "\n") == (raw + line) + "\n";
    SplitOneLine(kind, raw);
    SplitOneLine(kind, raw + line);
  }

  lemma EndsLineAfter(kind: Splitting, raw: string, next: nat)
    requires 0 < next <= |raw| && IsBreak(kind, raw[next - 1])
    ensures EndsLine(kind, raw[next..]) <==> EndsLine(kind, raw)
  {
  }

  lemma GlueTail(first: string, rest: seq<string>, line: string)
    requires rest != []
    ensures Glue([first] + rest, line) == [first] + Glue(rest, line)
    ensures ([first] + rest)[|rest|] == rest[|rest| - 1]
  {
    assert ([first] + rest)[..|rest|] == [first] + rest[..|rest| - 1];
  }
}
