/** Text as lines: how a reader cuts it, and what any beginning of a line-by-line log looks like. */
module TextLines {

  /** White space as a trim removes it. */
  predicate IsSpace(c: char) {
    var n := c as int;
    || 9 <= n <= 13 || n == 32 || n == 0x85 || n == 0xA0 || n == 0x1680 || 0x2000 <= n <= 0x200A
    || n == 0x2028 || n == 0x2029 || n == 0x202F || n == 0x205F || n == 0x3000
  }

  predicate Blank(s: string) {
    forall i :: 0 <= i < |s| ==> IsSpace(s[i])
  }

  function TrimLeft(s: string): (t: string)
    ensures t == "" || !IsSpace(t[0])
  {
    if s != "" && IsSpace(s[0]) then TrimLeft(s[1..]) else s
  }

  function TrimRight(s: string): (t: string)
    ensures t <= s && (t == "" || !IsSpace(t[|t| - 1]))
  {
    if s != "" && IsSpace(s[|s| - 1]) then TrimRight(s[..|s| - 1]) else s
  }

  function Trim(s: string): string {
    TrimRight(TrimLeft(s))
  }

  /** A line's text as a writer puts it: one that no reader cuts or shortens. */
  predicate IsLine(s: string) {
    s != "" && !IsSpace(s[0]) && !IsSpace(s[|s| - 1]) && forall i :: 0 <= i < |s| ==> s[i] != '\n' && s[i] != '\r'
  }

  predicate NoBreak(s: string) {
    forall i :: 0 <= i < |s| ==> s[i] != '\n' && s[i] != '\r'
  }

  function StripReturn(s: string): string {
    if s != "" && s[|s| - 1] == '\r' then s[..|s| - 1] else s
  }

  /** Position of the first line break, or the end. */
  function BreakAt(s: string): (k: nat)
    ensures k <= |s| && (k < |s| ==> s[k] == '\n') && forall i :: 0 <= i < k ==> s[i] != '\n'
  {
    if s == "" || s[0] == '\n' then 0 else 1 + BreakAt(s[1..])
  }

  /** The lines of a text: cut at every break, without the break and a return before it; no empty last line. */
  function Lines(text: string): seq<string> {
    if text == "" then []
    else
      var k := BreakAt(text);
      if k == |text| then [text] else [StripReturn(text[..k])] + Lines(text[k + 1..])
  }

  predicate EndsInBreak(text: string) {
    text != "" && text[|text| - 1] == '\n'
  }

  /** What a writer of lines leaves behind. */
  function Written(lines: seq<string>): string {
    if lines == [] then "" else lines[0] + "\n" + Written(lines[1..])
  }

  predicate AllLines(lines: seq<string>) {
    forall l :: l in lines ==> IsLine(l)
  }

  // ---------- trimming ----------

  lemma TrimLine(s: string)
    requires IsLine(s)
    ensures Trim(s) == s && !Blank(s)
  {
  }

  /** Trimming the beginning of a line leaves a beginning of it. */
  lemma TrimPrefix(s: string, p: string)
    requires IsLine(s) && p <= s
    ensures Trim(p) <= p && Trim(p) <= s && (Trim(p) == "" <==> p == "")
  {
    if p != "" {
      assert p[0] == s[0];
      TrimRightKeeps(p);
    }
  }

  lemma {:induction false} TrimRightKeeps(s: string)
    requires s != "" && !IsSpace(s[0])
    ensures TrimRight(s) != ""
  {
    if IsSpace(s[|s| - 1]) { TrimRightKeeps(s[..|s| - 1]); }
  }

  /** Trimming takes white space off both ends and nothing else. */
  lemma TrimMeans(s: string) returns (left: string, right: string)
    ensures s == left + Trim(s) + right && Blank(left) && Blank(right)
    ensures Trim(s) != "" ==> !IsSpace(Trim(s)[0]) && !IsSpace(Trim(s)[|Trim(s)| - 1])
  {
    left := LeftOf(s);
    right := RightOf(TrimLeft(s));
    assert s == left + (Trim(s) + right);
    if Trim(s) != "" { assert Trim(s)[0] == TrimLeft(s)[0]; }
  }

  lemma {:induction false} LeftOf(s: string) returns (left: string)
    ensures s == left + TrimLeft(s) && Blank(left)
    decreases |s|
  {
    left := "";
    if s != "" && IsSpace(s[0]) {
      var rest := LeftOf(s[1..]);
      left := [s[0]] + rest;
      assert s == [s[0]] + s[1..];
    }
  }

  lemma {:induction false} RightOf(s: string) returns (right: string)
    ensures s == TrimRight(s) + right && Blank(right)
    decreases |s|
  {
    right := "";
    if s != "" && IsSpace(s[|s| - 1]) {
      var rest := RightOf(s[..|s| - 1]);
      right := rest + [s[|s| - 1]];
      assert s == s[..|s| - 1] + [s[|s| - 1]];
    }
  }

  // ---------- what the lines of a text are ----------

  /** The pieces with a break between each two, and one behind the last if it is closed. */
  function Glued(pieces: seq<string>, closed: bool): string {
    if pieces == [] then ""
    else if |pieces| == 1 then pieces[0] + (if closed then "\n" else "")
    else pieces[0] + "\n" + Glued(pieces[1..], closed)
  }

  /** The line is the piece; before a break, without a return at its end. */
  predicate IsCut(piece: string, line: string, broken: bool) {
    && (forall i :: 0 <= i < |piece| ==> piece[i] != '\n')
    && if broken && piece != "" && piece[|piece| - 1] == '\r' then piece == line + "\r" else piece == line
  }

  /** All pieces are cut so, the last one before a break only if the text is closed by one. */
  predicate AreCut(pieces: seq<string>, lines: seq<string>, closed: bool) {
    && |pieces| == |lines|
    && forall i :: 0 <= i < |pieces| ==> IsCut(pieces[i], lines[i], i + 1 < |pieces| || closed)
  }

  lemma CutFirst(piece: string, pieces: seq<string>, lines: seq<string>, closed: bool)
    requires (forall i :: 0 <= i < |piece| ==> piece[i] != '\n') && AreCut(pieces, lines, closed)
    requires pieces == [] ==> closed
    ensures AreCut([piece] + pieces, [StripReturn(piece)] + lines, closed)
    ensures Glued([piece] + pieces, closed) == piece + "\n" + Glued(pieces, closed)
  {
    assert ([piece] + pieces)[1..] == pieces;
    assert piece + "\n" + "" == piece + "\n";
    StrippedIsCut(piece);
    forall i | 0 < i <= |pieces|
      ensures IsCut(([piece] + pieces)[i], ([StripReturn(piece)] + lines)[i], i + 1 < |pieces| + 1 || closed)
    {
      assert IsCut(pieces[i - 1], lines[i - 1], i < |pieces| || closed);
    }
  }

  lemma StrippedIsCut(piece: string)
    requires forall i :: 0 <= i < |piece| ==> piece[i] != '\n'
    ensures IsCut(piece, StripReturn(piece), true)
  {
    if piece != "" && piece[|piece| - 1] == '\r' { assert piece == StripReturn(piece) + "\r"; }
  }

  lemma OnePiece(text: string)
    requires text != "" && BreakAt(text) == |text|
    ensures AreCut([text], [text], false) && Glued([text], false) == text && !EndsInBreak(text)
  {
    assert text + "" == text;
  }

  lemma FirstPiece(text: string, k: nat, more: seq<string>)
    requires k < |text| && k == BreakAt(text)
    requires var rest := text[k + 1..];
             rest == Glued(more, EndsInBreak(rest)) && AreCut(more, Lines(rest), EndsInBreak(rest))
    ensures var pieces := [text[..k]] + more;
            text == Glued(pieces, EndsInBreak(text)) && AreCut(pieces, Lines(text), EndsInBreak(text))
    ensures more == [] ==> EndsInBreak(text)
    ensures more != [] ==> EndsInBreak(text[k + 1..]) == EndsInBreak(text)
  {
    var first, rest := text[..k], text[k + 1..];
    var lines := Lines(rest);
    assert text == first + "\n" + rest;
    assert Lines(text) == [StripReturn(first)] + lines;
    assert rest == "" ==> lines == [] && EndsInBreak(text);
    assert rest != "" ==> lines != [] && EndsInBreak(rest) == EndsInBreak(text);
    CutFirst(first, more, lines, EndsInBreak(text));
  }

  /** Any text is its pieces, and its lines are those pieces as cut; a last piece without a break is not empty. */
  lemma {:induction false} LinesMean(text: string) returns (pieces: seq<string>)
    ensures text == Glued(pieces, EndsInBreak(text)) && AreCut(pieces, Lines(text), EndsInBreak(text))
    ensures pieces != [] && !EndsInBreak(text) ==> pieces[|pieces| - 1] != ""
    decreases |text|
  {
    pieces := [];
    if text != "" {
      var k := BreakAt(text);
      if k == |text| {
        pieces := [text];
        OnePiece(text);
      } else {
        var first, rest := text[..k], text[k + 1..];
        var more := LinesMean(rest);
        pieces := [first] + more;
        FirstPiece(text, k, more);
      }
    }
  }

  // ---------- cutting what was written ----------

  lemma {:induction false} BreakAtFound(line: string, rest: string)
    requires NoBreak(line)
    ensures BreakAt(line + "\n" + rest) == |line|
  {
    var text := line + "\n" + rest;
    assert text[|line|] == '\n';
    assert forall i :: 0 <= i < |line| ==> text[i] == line[i];
  }

  lemma LinesStep(line: string, rest: string)
    requires IsLine(line)
    ensures Lines(line + "\n" + rest) == [line] + Lines(rest)
  {
    var text := line + "\n" + rest;
    BreakAtFound(line, rest);
    assert text[..|line|] == line && text[|line| + 1..] == rest;
  }

  /** Reading cuts a written log, with an unfinished line behind it, into just its lines. */
  lemma {:induction false} LinesOfWritten(lines: seq<string>, tail: string)
    requires AllLines(lines) && NoBreak(tail)
    ensures Lines(Written(lines) + tail) == lines + (if tail == "" then [] else [tail])
    ensures EndsInBreak(Written(lines) + tail) <==> lines != [] && tail == ""
    decreases |lines|
  {
    if lines == [] {
      assert Written(lines) + tail == tail;
    } else {
      var rest := Written(lines[1..]) + tail;
      assert Written(lines) + tail == lines[0] + "\n" + rest;
      assert lines[0] in lines;
      LinesStep(lines[0], rest);
      LinesOfWritten(lines[1..], tail);
      FirstInFront(lines, if tail == "" then [] else [tail]);
    }
  }

  lemma FirstInFront<T>(a: seq<T>, b: seq<T>)
    requires a != []
    ensures [a[0]] + (a[1..] + b) == a + b
  {
  }

  /** Any beginning of a written log is some of its lines whole, and a beginning of the next. */
  lemma {:induction false} PrefixSplits(lines: seq<string>, p: string) returns (k: nat, tail: string)
    requires p <= Written(lines)
    ensures k <= |lines| && p == Written(lines[..k]) + tail
    ensures if k < |lines| then tail <= lines[k] else tail == ""
    decreases |lines|
  {
    if lines == [] || |p| <= |lines[0]| {
      k, tail := 0, p;
      assert lines[..0] == [];
      assert lines != [] ==> p == Written(lines)[..|p|] && lines[0] == Written(lines)[..|lines[0]|];
    } else {
      var n := |lines[0]| + 1;
      assert p[..n] == Written(lines)[..n] == lines[0] + "\n";
      assert p[n..] <= Written(lines[1..]) by { assert Written(lines)[n..] == Written(lines[1..]); }
      var j;
      j, tail := PrefixSplits(lines[1..], p[n..]);
      k := j + 1;
      assert lines[..k][1..] == lines[1..][..j];
      assert p == p[..n] + p[n..];
    }
  }

  lemma {:induction false} WrittenConcat(a: seq<string>, b: seq<string>)
    ensures Written(a + b) == Written(a) + Written(b)
    decreases |a|
  {
    if a == [] {
      assert a + b == b;
    } else {
      assert (a + b)[1..] == a[1..] + b;
      WrittenConcat(a[1..], b);
    }
  }

  // ---------- items written one per line ----------

  function Encoded<T>(encode: T -> string, xs: seq<T>): seq<string> {
    seq(|xs|, i requires 0 <= i < |xs| => encode(xs[i]))
  }

  /** The text after these items have been appended, each on its line. */
  function Text<T>(encode: T -> string, xs: seq<T>): string {
    Written(Encoded(encode, xs))
  }

  ghost predicate EncodesLines<T(!new)>(encode: T -> string) {
    forall x :: IsLine(encode(x))
  }

  lemma TextSnoc<T>(encode: T -> string, xs: seq<T>, x: T)
    ensures Text(encode, xs + [x]) == Text(encode, xs) + encode(x) + "\n"
  {
    assert Encoded(encode, xs + [x]) == Encoded(encode, xs) + [encode(x)];
    WrittenConcat(Encoded(encode, xs), [encode(x)]);
    assert [encode(x)][1..] == [];
    assert Written([encode(x)]) == encode(x) + "\n";
  }

  /** Every item makes the text longer by at least its line and the break. */
  lemma {:induction false} TextLonger<T>(encode: T -> string, xs: seq<T>, k: nat, j: nat)
    requires k < j <= |xs|
    ensures |Text(encode, xs[..j])| >= |Text(encode, xs[..k])| + |encode(xs[k])| + 1
    decreases j
  {
    assert xs[..j] == xs[..j - 1] + [xs[j - 1]];
    TextSnoc(encode, xs[..j - 1], xs[j - 1]);
    if j - 1 > k { TextLonger(encode, xs, k, j - 1); }
  }

  /** A beginning of an encoding holds no break. */
  lemma TailIsUnbroken<T(!new)>(encode: T -> string, xs: seq<T>, k: nat, tail: string)
    requires EncodesLines(encode) && k <= |xs| && if k < |xs| then tail <= encode(xs[k]) else tail == ""
    ensures NoBreak(tail)
  {
    if k < |xs| {
      assert IsLine(encode(xs[k]));
      assert forall i :: 0 <= i < |tail| ==> tail[i] == encode(xs[k])[i];
    }
  }

  /** The text is cut into just the encodings, with what stands behind them as a last line. */
  lemma LinesOfText<T(!new)>(encode: T -> string, xs: seq<T>, tail: string)
    requires EncodesLines(encode) && NoBreak(tail)
    ensures Lines(Text(encode, xs) + tail) == Encoded(encode, xs) + (if tail == "" then [] else [tail])
    ensures EndsInBreak(Text(encode, xs) + tail) <==> xs != [] && tail == ""
  {
    forall l | l in Encoded(encode, xs) ensures IsLine(l) {
      var i :| 0 <= i < |xs| && l == encode(xs[i]);
    }
    LinesOfWritten(Encoded(encode, xs), tail);
  }

  /** A number in unary. */
  function Ones(n: nat): string {
    seq(n, i => '1')
  }
}
