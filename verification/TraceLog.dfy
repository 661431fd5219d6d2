/** The trace file: an append-only log of lines, and a reader that survives a torn last line. */
module TraceLog {
  import opened Actions
  import opened TextLines

  const TRACE_VERSION: nat := 3

  /** How an event becomes a line and a line an event: decoding fails or yields the line's version and event. */
  datatype Codec<!E> = Codec(encode: E -> string, decode: string -> Option<(nat, E)>)

  datatype TraceError = Malformed(line: nat) | UnsupportedVersion(line: nat, version: nat)

  /** What the serialisation must guarantee for one event: a proper line that decodes to the event under the current
      version, and of which no beginning decodes at all. */
  ghost predicate LineLaw<E>(c: Codec<E>, e: E) {
    && IsLine(c.encode(e)) && c.decode(c.encode(e)) == Some((TRACE_VERSION, e))
    && forall k :: 0 <= k < |c.encode(e)| ==> c.decode(c.encode(e)[..k]).None?
  }

  ghost predicate Lawful<E(!new)>(c: Codec<E>) {
    forall e :: LineLaw(c, e)
  }

  lemma LawfulEncodes<E(!new)>(c: Codec<E>)
    requires Lawful(c)
    ensures EncodesLines(c.encode)
  {
    forall e ensures IsLine(c.encode(e)) { assert LineLaw(c, e); }
  }

  /** The file after these events have been appended. */
  function Log<E>(c: Codec<E>, events: seq<E>): string {
    Text(c.encode, events)
  }

  // ---------- the writer ----------

  class TraceWriter<E> {
    const codec: Codec<E>
    var file: string
    ghost var appended: seq<E>

    ghost var failed: Option<E>

    /** The file holds the appended events, and behind them perhaps a part of the one whose append failed. */
    ghost predicate Valid()
      reads this
    {
      match failed
      case None => file == Log(codec, appended)
      case Some(event) => Log(codec, appended) <= file <= Log(codec, appended + [event])
    }

    constructor (codec: Codec<E>)
      ensures Valid() && this.codec == codec && appended == [] && failed == None
    {
      this.codec := codec;
      file, appended, failed := "", [], None;
    }

    /** `reached` is how many characters of the line get to the file before an error of the file system, if there is
        one. */
    method Append(event: E, reached: Option<nat>) returns (ok: bool)
      requires Valid() && failed == None
      modifies this
      ensures Valid() && ok == reached.None?
      ensures ok ==> failed == None && appended == old(appended) + [event]
                     && file == old(file) + codec.encode(event) + "\n"
      ensures !ok ==> failed == Some(event) && appended == old(appended) && old(file) <= file
    {
      TextSnoc(codec.encode, appended, event);
      var line := codec.encode(event) + "\n";
      assert file + line == file + codec.encode(event) + "\n";
      if reached.Some? {
        var part := if reached.value < |line| then line[..reached.value] else line;
        assert line == part + line[|part|..];
        file := file + part;
        failed := Some(event);
        return false;
      }
      file := file + line;
      appended := appended + [event];
      ok := true;
    }
  }

  // ---------- the reader ----------

  /** The lines from number `at` on. `torn` allows the very last line to be malformed. */
  function ReadLines<E>(c: Codec<E>, lines: seq<string>, at: nat, torn: bool): Result<seq<E>, TraceError> {
    if lines == [] then Ok([])
    else if Blank(lines[0]) then ReadLines(c, lines[1..], at + 1, torn)
    else match c.decode(lines[0])
      case None => if torn && |lines| == 1 then Ok([]) else Err(Malformed(at))
      case Some((version, event)) =>
        if version != TRACE_VERSION then Err(UnsupportedVersion(at, version))
        else match ReadLines(c, lines[1..], at + 1, torn)
          case Err(error) => Err(error)
          case Ok(events) => Ok([event] + events)
  }

  function Read<E>(c: Codec<E>, text: string): Result<seq<E>, TraceError> {
    ReadLines(c, Lines(text), 1, !EndsInBreak(text))
  }

  method ReadTrace<E>(c: Codec<E>, text: string) returns (result: Result<seq<E>, TraceError>)
    ensures result == Read(c, text)
  {
    var tornTailAllowed := text == "" || text[|text| - 1] != '\n';
    var lines := Lines(text);
    var events: seq<E> := [];
    AfterNothing(ReadLines(c, lines, 1, tornTailAllowed));
    assert lines[0..] == lines;
    for idx := 0 to |lines|
      invariant Read(c, text) == After(events, ReadLines(c, lines[idx..], idx + 1, tornTailAllowed))
    {
      var line := lines[idx];
      assert lines[idx..][1..] == lines[idx + 1..];
      if !Blank(line) {
        var parsed := c.decode(line);
        if parsed.None? {
          if tornTailAllowed && idx + 1 == |lines| {
            assert events + [] == events;
            return Ok(events);
          }
          return Err(Malformed(idx + 1));
        }
        if parsed.value.0 != TRACE_VERSION {
          return Err(UnsupportedVersion(idx + 1, parsed.value.0));
        }
        AfterStep(events, parsed.value.1, ReadLines(c, lines[idx + 1..], idx + 2, tornTailAllowed));
        events := events + [parsed.value.1];
      }
    }
    assert events + [] == events;
    result := Ok(events);
  }

  /** Events read before, then the rest. */
  function After<E>(before: seq<E>, rest: Result<seq<E>, TraceError>): Result<seq<E>, TraceError> {
    match rest
    case Err(error) => Err(error)
    case Ok(events) => Ok(before + events)
  }

  lemma AfterNothing<E>(rest: Result<seq<E>, TraceError>)
    ensures After([], rest) == rest
  {
    if rest.Ok? { assert [] + rest.value == rest.value; }
  }

  lemma AfterStep<E>(before: seq<E>, e: E, rest: Result<seq<E>, TraceError>)
    ensures After(before + [e], rest) ==
            After(before, match rest case Err(error) => Err(error) case Ok(events) => Ok([e] + events))
  {
    if rest.Ok? { assert before + [e] + rest.value == before + ([e] + rest.value); }
  }

  // ---------- crash recovery ----------

  /** Whole lines read back as their events, whatever is read behind them. */
  lemma {:induction false} ReadWhole<E(!new)>(c: Codec<E>, events: seq<E>, rest: seq<string>, at: nat, torn: bool)
    requires Lawful(c)
    ensures ReadLines(c, Encoded(c.encode, events) + rest, at, torn) ==
            After(events, ReadLines(c, rest, at + |events|, torn))
    decreases |events|
  {
    var lines := Encoded(c.encode, events) + rest;
    if events == [] {
      assert lines == rest;
      AfterNothing(ReadLines(c, rest, at, torn));
    } else {
      var e := events[0];
      assert LineLaw(c, e);
      TrimLine(c.encode(e));
      assert lines[0] == c.encode(e) && lines[1..] == Encoded(c.encode, events[1..]) + rest;
      ReadWhole(c, events[1..], rest, at + 1, torn);
      var r := ReadLines(c, rest, at + |events|, torn);
      assert events == [e] + events[1..];
      assert r.Ok? ==> [e] + (events[1..] + r.value) == events + r.value;
    }
  }

  /** The last line, torn or not: either the event is all there, or there is nothing. */
  lemma ReadTail<E(!new)>(c: Codec<E>, e: E, tail: string, at: nat)
    requires Lawful(c) && tail <= c.encode(e) && tail != ""
    ensures ReadLines(c, [tail], at, true) == Ok(if tail == c.encode(e) then [e] else [])
  {
    assert LineLaw(c, e);
    assert tail[0] == c.encode(e)[0] && !Blank(tail);
    assert [tail][1..] == [];
    if tail == c.encode(e) {
      assert ReadLines(c, [tail][1..], at + 1, true) == Ok([]);
      var none: seq<E> := [];
      assert [e] + none == [e];
    } else {
      assert tail == c.encode(e)[..|tail|];
    }
  }

  /** A log read back in full. */
  lemma RoundTrip<E(!new)>(c: Codec<E>, events: seq<E>)
    requires Lawful(c)
    ensures Read(c, Log(c, events)) == Ok(events)
  {
    LawfulEncodes(c);
    LinesOfText(c.encode, events, "");
    var torn := !EndsInBreak(Log(c, events));
    ReadWhole(c, events, [], 1, torn);
    assert Log(c, events) + "" == Log(c, events);
    assert Encoded(c.encode, events) + [] == Encoded(c.encode, events);
    assert ReadLines(c, [], 1 + |events|, torn) == Ok([]);
    var none: seq<E> := [];
    assert events + none == events;
  }

  /** Whole lines and a beginning of one more read as the whole lines' events, and the one more if it is all there. */
  lemma ReadThrough<E(!new)>(c: Codec<E>, events: seq<E>, k: nat, tail: string)
    requires Lawful(c) && k <= |events|
    requires if k < |events| then tail <= c.encode(events[k]) else tail == ""
    ensures Read(c, Log(c, events[..k]) + tail) ==
            Ok(events[..k] + if tail != "" && tail == c.encode(events[k]) then [events[k]] else [])
  {
    var whole := events[..k];
    var text := Log(c, whole) + tail;
    var rest := if tail == "" then [] else [tail];
    LawfulEncodes(c);
    TailIsUnbroken(c.encode, events, k, tail);
    LinesOfText(c.encode, whole, tail);
    ReadWhole(c, whole, rest, 1, !EndsInBreak(text));
    if tail != "" { ReadTail(c, events[k], tail, 1 + |whole|); }
  }

  /** Crash recovery: any beginning of a written trace reads back without error, as the first events, as many as have
      their whole line in it, the break after the last not needed. */
  lemma CrashRecovery<E(!new)>(c: Codec<E>, events: seq<E>, p: string)
    requires Lawful(c) && p <= Log(c, events)
    ensures var r := Read(c, p);
            && r.Ok? && r.value <= events
            && Log(c, r.value) <= p + "\n"
            && forall k :: 0 <= k <= |events| && Log(c, events[..k]) <= p ==> k <= |r.value|
  {
    var k, tail := PrefixSplits(Encoded(c.encode, events), p);
    assert Encoded(c.encode, events)[..k] == Encoded(c.encode, events[..k]);
    ReadThrough(c, events, k, tail);
    RecoveredExactly(c, events, p, k, tail, if tail != "" && tail == c.encode(events[k]) then [events[k]] else []);
  }

  lemma RecoveredExactly<E(!new)>(c: Codec<E>, events: seq<E>, p: string, k: nat, tail: string, got: seq<E>)
    requires Lawful(c) && k <= |events| && p == Log(c, events[..k]) + tail
    requires if k < |events| then tail <= c.encode(events[k]) else tail == ""
    requires got == if tail != "" && tail == c.encode(events[k]) then [events[k]] else []
    ensures events[..k] + got <= events && Log(c, events[..k] + got) <= p + "\n"
    ensures forall j :: 0 <= j <= |events| && Log(c, events[..j]) <= p ==> j <= |events[..k] + got|
  {
    if got != [] {
      TextSnoc(c.encode, events[..k], events[k]);
      assert Log(c, events[..k]) + tail + "\n" == p + "\n";
    } else {
      assert events[..k] + got == events[..k];
    }
    forall j | 0 <= j <= |events| && Log(c, events[..j]) <= p ensures j <= |events[..k] + got| {
      if j > k { TextLonger(c.encode, events, k, j); }
    }
  }

  // ---------- what a successful read means ----------

  /** Blank, or decodes under the current version. */
  predicate IsGood<E>(c: Codec<E>, line: string) {
    Blank(line) || (c.decode(line).Some? && c.decode(line).value.0 == TRACE_VERSION)
  }

  predicate AllGood<E>(c: Codec<E>, lines: seq<string>) {
    forall i :: 0 <= i < |lines| ==> IsGood(c, lines[i])
  }

  /** The events of the lines that are not blank. */
  function Values<E>(c: Codec<E>, lines: seq<string>): seq<E>
    requires AllGood(c, lines)
  {
    if lines == [] then []
    else
      (if Blank(lines[0]) then [] else [c.decode(lines[0]).value.1])
      + (assert forall i :: 0 <= i < |lines[1..]| ==> lines[1..][i] == lines[i + 1]; Values(c, lines[1..]))
  }

  /** The last line alone is malformed. */
  predicate TornAtEnd<E>(c: Codec<E>, lines: seq<string>) {
    lines != [] && !Blank(lines[|lines| - 1]) && c.decode(lines[|lines| - 1]).None? && AllGood(c, lines[..|lines| - 1])
  }

  lemma {:induction false} ReadMeans<E>(c: Codec<E>, lines: seq<string>, at: nat, torn: bool)
    ensures var r := ReadLines(c, lines, at, torn);
            && (r.Ok? <==> AllGood(c, lines) || (torn && TornAtEnd(c, lines)))
            && (AllGood(c, lines) ==> r == Ok(Values(c, lines)))
            && (torn && TornAtEnd(c, lines) ==> r == Ok(Values(c, lines[..|lines| - 1])))
    decreases |lines|
  {
    if lines != [] {
      ReadMeans(c, lines[1..], at + 1, torn);
      var good := IsGood(c, lines[0]);
      assert AllGood(c, lines) <==> good && AllGood(c, lines[1..]) by {
        if good && AllGood(c, lines[1..]) {
          forall i | 0 < i < |lines| ensures lines[i] == lines[1..][i - 1] {}
        }
        if AllGood(c, lines) {
          forall i | 0 <= i < |lines[1..]| ensures lines[1..][i] == lines[i + 1] {}
        }
      }
      if |lines| > 1 { TornStep(c, lines); }
      if good {
        var first := if Blank(lines[0]) then [] else [c.decode(lines[0]).value.1];
        ReadFirst(c, lines, at, torn, first);
      }
    }
  }

  /** A good first line contributes its event, if it has one. */
  lemma ReadFirst<E>(c: Codec<E>, lines: seq<string>, at: nat, torn: bool, first: seq<E>)
    requires lines != []
    requires IsGood(c, lines[0]) && first == if Blank(lines[0]) then [] else [c.decode(lines[0]).value.1]
    ensures ReadLines(c, lines, at, torn) == After(first, ReadLines(c, lines[1..], at + 1, torn))
  {
    AfterNothing(ReadLines(c, lines[1..], at + 1, torn));
  }

  lemma TornStep<E>(c: Codec<E>, lines: seq<string>)
    requires |lines| > 1
    ensures var good := IsGood(c, lines[0]);
            && (TornAtEnd(c, lines) <==> good && TornAtEnd(c, lines[1..]))
            && (TornAtEnd(c, lines) ==>
                  Values(c, lines[..|lines| - 1]) ==
                  (if Blank(lines[0]) then [] else [c.decode(lines[0]).value.1]) + Values(c, lines[1..][..|lines| - 2]))
  {
    var front, rest := lines[..|lines| - 1], lines[1..];
    assert front[1..] == rest[..|rest| - 1] && front[0] == lines[0];
    assert AllGood(c, front) <==>
           IsGood(c, lines[0]) && AllGood(c, front[1..]) by {
      if AllGood(c, front[1..]) {
        forall i | 0 < i < |front| ensures front[i] == front[1..][i - 1] {}
      }
    }
  }

  /** A trace reads without error exactly when every line is blank or decodes under the current version, save that a
      last line without its break may be malformed; then the events are those of the good lines, in order. Corruption
      before the last line, and a foreign version anywhere, are errors. */
  lemma ReadIffGood<E>(c: Codec<E>, text: string)
    ensures var lines := Lines(text);
            && (Read(c, text).Ok? <==> AllGood(c, lines) || (!EndsInBreak(text) && TornAtEnd(c, lines)))
            && (AllGood(c, lines) ==> Read(c, text) == Ok(Values(c, lines)))
            && (!EndsInBreak(text) && TornAtEnd(c, lines) ==> Read(c, text) == Ok(Values(c, lines[..|lines| - 1])))
  {
    ReadMeans(c, Lines(text), 1, !EndsInBreak(text));
  }

  lemma {:induction false} ReadPastGood<E>(c: Codec<E>, lines: seq<string>, at: nat, torn: bool, i: nat)
    requires i < |lines| && AllGood(c, lines[..i])
    ensures ReadLines(c, lines, at, torn).Err? <==> ReadLines(c, lines[i..], at + i, torn).Err?
    ensures ReadLines(c, lines, at, torn).Err? ==>
              ReadLines(c, lines, at, torn) == ReadLines(c, lines[i..], at + i, torn)
    decreases i
  {
    if i == 0 {
      assert lines[0..] == lines;
    } else {
      var front := lines[..i];
      assert front[0] == lines[0] && front[1..] == lines[1..][..i - 1] && lines[1..][i - 1..] == lines[i..];
      assert AllGood(c, front[1..]) by {
        forall k | 0 <= k < |front[1..]| ensures IsGood(c, front[1..][k]) { assert IsGood(c, front[k + 1]); }
      }
      assert IsGood(c, lines[0]);
      ReadPastGood(c, lines[1..], at + 1, torn, i - 1);
      ReadFirst(c, lines, at, torn, if Blank(lines[0]) then [] else [c.decode(lines[0]).value.1]);
    }
  }

  /** Otherwise the first line that is not good names the error and its own number, counted from one. */
  lemma FirstBadLine<E>(c: Codec<E>, text: string, i: nat)
    requires i < |Lines(text)| && AllGood(c, Lines(text)[..i]) && !IsGood(c, Lines(text)[i])
    ensures match c.decode(Lines(text)[i])
            case Some((version, _)) => Read(c, text) == Err(UnsupportedVersion(i + 1, version))
            case None => if i + 1 < |Lines(text)| || EndsInBreak(text) then Read(c, text) == Err(Malformed(i + 1))
                         else Read(c, text).Ok?
  {
    ReadPastGood(c, Lines(text), 1, !EndsInBreak(text), i);
    assert Lines(text)[i..][0] == Lines(text)[i];
  }

  // ---------- a codec that meets the law ----------

  /** A number between braces, in unary. */
  function Unary(): Codec<nat> {
    Codec(
      (n: nat) => "{" + Ones(n) + "}",
      (s: string) =>
        if |s| >= 2 && s[0] == '{' && s[|s| - 1] == '}' && s[1..|s| - 1] == Ones(|s| - 2)
        then Some((TRACE_VERSION, |s| - 2)) else None)
  }

  /** So the law can be met. */
  lemma UnaryIsLawful()
    ensures Lawful(Unary())
  {
  }
}
