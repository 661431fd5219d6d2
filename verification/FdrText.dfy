/** Which texts load as flight data, whoever wrote them, and as what. */
module FdrText {
  import opened Actions
  import opened TextLines
  import opened FdrLog

  predicate IsBlank(line: string) {
    Trim(line) == ""
  }

  /** Neither blank nor valid JSON. */
  predicate IsMalformed<M, S, E>(c: Codec<M, S, E>, line: string) {
    !IsBlank(line) && c.decode(Trim(line)).None?
  }

  predicate IsHeader<M, S, E>(c: Codec<M, S, E>, line: string) {
    !IsBlank(line) && match c.decode(Trim(line))
                      case Some(Good(record)) => Accepts(record)
                      case _ => false
  }

  predicate HasHeader<M, S, E>(c: Codec<M, S, E>, lines: seq<string>) {
    exists j :: 0 <= j < |lines| && IsHeader(c, lines[j])
  }

  /** Blank, or a header that is taken, or behind such a header any other record. */
  predicate Admitted<M, S, E>(c: Codec<M, S, E>, line: string, behind: bool) {
    IsBlank(line) || IsHeader(c, line) ||
    (behind && match c.decode(Trim(line))
               case Some(Good(record)) => !record.Header?
               case _ => false)
  }

  predicate AllAdmitted<M, S, E>(c: Codec<M, S, E>, lines: seq<string>, behind: bool) {
    forall i :: 0 <= i < |lines| ==> Admitted(c, lines[i], behind || HasHeader(c, lines[..i]))
  }

  /** Only the last line is malformed. */
  predicate MalformedAtEnd<M, S, E>(c: Codec<M, S, E>, lines: seq<string>, behind: bool) {
    lines != [] && IsMalformed(c, lines[|lines| - 1]) && AllAdmitted(c, lines[..|lines| - 1], behind)
  }

  /** The records of the lines that hold one, in order. */
  function Records<M, S, E>(c: Codec<M, S, E>, lines: seq<string>): seq<Record<M, S, E>> {
    if lines == [] then [] else RecordsOf(c, lines[0]) + Records(c, lines[1..])
  }

  function RecordsOf<M, S, E>(c: Codec<M, S, E>, line: string): seq<Record<M, S, E>> {
    if IsBlank(line) then []
    else match c.decode(Trim(line))
      case Some(Good(record)) => [record]
      case _ => []
  }

  // ---------- line by line ----------

  lemma HeaderStep<M, S, E>(c: Codec<M, S, E>, lines: seq<string>)
    requires lines != []
    ensures HasHeader(c, lines) <==> IsHeader(c, lines[0]) || HasHeader(c, lines[1..])
  {
    assert lines == [lines[0]] + lines[1..];
  }

  lemma AdmittedStep<M, S, E>(c: Codec<M, S, E>, lines: seq<string>, behind: bool)
    requires lines != []
    ensures AllAdmitted(c, lines, behind) <==>
            Admitted(c, lines[0], behind) && AllAdmitted(c, lines[1..], behind || IsHeader(c, lines[0]))
  {
    forall i | 0 <= i < |lines[1..]|
      ensures HasHeader(c, lines[..i + 1]) <==> IsHeader(c, lines[0]) || HasHeader(c, lines[1..][..i])
    {
      HeaderStep(c, lines[..i + 1]);
      assert lines[..i + 1][1..] == lines[1..][..i];
    }
    assert !HasHeader(c, lines[..0]);
    forall i | 0 <= i < |lines|
      ensures Admitted(c, lines[i], behind || HasHeader(c, lines[..i])) <==>
              if i == 0 then Admitted(c, lines[0], behind)
              else Admitted(c, lines[1..][i - 1], behind || IsHeader(c, lines[0]) || HasHeader(c, lines[1..][..i - 1]))
    {
    }
    if AllAdmitted(c, lines, behind) {
      forall i | 0 <= i < |lines[1..]|
        ensures Admitted(c, lines[1..][i], (behind || IsHeader(c, lines[0])) || HasHeader(c, lines[1..][..i]))
      {
        assert Admitted(c, lines[i + 1], behind || HasHeader(c, lines[..i + 1]));
      }
    }
  }

  lemma EndStep<M, S, E>(c: Codec<M, S, E>, lines: seq<string>, behind: bool)
    requires |lines| > 1
    ensures MalformedAtEnd(c, lines, behind) <==>
            Admitted(c, lines[0], behind) && MalformedAtEnd(c, lines[1..], behind || IsHeader(c, lines[0]))
    ensures Records(c, lines[..|lines| - 1]) == RecordsOf(c, lines[0]) + Records(c, lines[1..][..|lines| - 2])
  {
    var front := lines[..|lines| - 1];
    AdmittedStep(c, front, behind);
    assert front[1..] == lines[1..][..|lines| - 2] && front[0] == lines[0];
  }

  /** An admitted line contributes its record and may be the header. */
  lemma AdmittedLoads<M, S, E>(c: Codec<M, S, E>, lines: seq<string>, seen: bool, r: Recording<M, S, E>)
    requires lines != [] && Admitted(c, lines[0], seen)
    ensures LoadLines(c, lines, seen, r) ==
            LoadLines(c, lines[1..], seen || IsHeader(c, lines[0]), PutAll(r, RecordsOf(c, lines[0])))
  {
    var got := RecordsOf(c, lines[0]);
    assert got != [] ==> got[1..] == [];
  }

  lemma OtherStops<M, S, E>(c: Codec<M, S, E>, lines: seq<string>, seen: bool, r: Recording<M, S, E>)
    requires lines != [] && !Admitted(c, lines[0], seen)
    ensures LoadLines(c, lines, seen, r) ==
            if IsMalformed(c, lines[0]) then
              if |lines| > 1 then Err(Unparsable) else if seen then Ok(r) else Err(NoHeader)
            else Err(Take(c.decode(Trim(lines[0])).value, seen).error)
    ensures IsMalformed(c, lines[0]) || Take(c.decode(Trim(lines[0])).value, seen).Err?
  {
  }

  lemma {:induction false} LoadLinesIff<M, S, E>(
      c: Codec<M, S, E>, lines: seq<string>, seen: bool, r: Recording<M, S, E>)
    ensures var got := LoadLines(c, lines, seen, r);
            && (got.Ok? <==> (seen || HasHeader(c, lines))
                             && (AllAdmitted(c, lines, seen) || MalformedAtEnd(c, lines, seen)))
            && (got.Ok? ==> got.value == PutAll(r, Records(c, if AllAdmitted(c, lines, seen) then lines
                                                             else lines[..|lines| - 1])))
    decreases |lines|
  {
    if lines != [] {
      HeaderStep(c, lines);
      AdmittedStep(c, lines, seen);
      if Admitted(c, lines[0], seen) {
        LoadLinesIff(c, lines[1..], seen || IsHeader(c, lines[0]), PutAll(r, RecordsOf(c, lines[0])));
        AdmittedLoads(c, lines, seen, r);
        if |lines| > 1 { EndStep(c, lines, seen); }
        PutConcat(r, RecordsOf(c, lines[0]), Records(c, lines[1..]));
        if |lines| > 1 { PutConcat(r, RecordsOf(c, lines[0]), Records(c, lines[1..][..|lines| - 2])); }
      } else {
        OtherStops(c, lines, seen, r);
        if |lines| > 1 { EndStep(c, lines, seen); }
      }
    }
  }

  // ---------- main results ----------

  /** A text loads exactly when a header that is taken is among its lines and every line is blank, such a header, or a
      record behind one, save that the very last line may be malformed, whether or not it ends in a break.
      It loads as what the records of its lines amount to, the malformed one left out. */
  lemma LoadIffGood<M, S, E>(c: Codec<M, S, E>, raw: string)
    ensures var lines := Lines(raw);
            && (Load(c, raw).Ok? <==>
                  HasHeader(c, lines) && (AllAdmitted(c, lines, false) || MalformedAtEnd(c, lines, false)))
            && (Load(c, raw).Ok? ==>
                  Load(c, raw).value ==
                  Amount(Records(c, if AllAdmitted(c, lines, false) then lines else lines[..|lines| - 1])))
  {
    var lines := Lines(raw);
    LoadLinesIff(c, lines, false, EmptyRecording());
    PutsAmount(Records(c, lines));
    if lines != [] { PutsAmount(Records(c, lines[..|lines| - 1])); }
  }

  /** What is documented: only a torn last line, one without its break, may be malformed. */
  ghost predicate Recoverable<M, S, E>(c: Codec<M, S, E>, raw: string) {
    var lines := Lines(raw);
    HasHeader(c, lines)
    && (AllAdmitted(c, lines, false) || (!EndsInBreak(raw) && MalformedAtEnd(c, lines, false)))
  }

  /** Loading is as documented exactly when the text does not end in a malformed line that is complete. */
  lemma DocumentedRecoveryIff<M, S, E>(c: Codec<M, S, E>, raw: string)
    ensures (Load(c, raw).Ok? <==> Recoverable(c, raw)) <==>
            !(EndsInBreak(raw) && HasHeader(c, Lines(raw)) && MalformedAtEnd(c, Lines(raw), false))
  {
    var lines := Lines(raw);
    LoadIffGood(c, raw);
    if MalformedAtEnd(c, lines, false) {
      assert !Admitted(c, lines[|lines| - 1], HasHeader(c, lines[..|lines| - 1]));
    }
  }

  /** Otherwise the first line that is not admitted names the error, a malformed one before the last being unparsable;
      with no such line the header is missing. */
  lemma FirstBadLine<M, S, E>(c: Codec<M, S, E>, raw: string, i: nat)
    requires i < |Lines(raw)| && AllAdmitted(c, Lines(raw)[..i], false)
    requires !Admitted(c, Lines(raw)[i], HasHeader(c, Lines(raw)[..i]))
    ensures var line, behind := Lines(raw)[i], HasHeader(c, Lines(raw)[..i]);
            && (IsMalformed(c, line) && i + 1 < |Lines(raw)| ==> Load(c, raw) == Err(Unparsable))
            && (IsMalformed(c, line) && i + 1 == |Lines(raw)| && !behind ==> Load(c, raw) == Err(NoHeader))
            && (!IsMalformed(c, line) ==>
                  Load(c, raw) == Err(match c.decode(Trim(line)).value
                                      case Good(Header(known, version)) =>
                                        if !known then ForeignFormat else VersionMismatch(AsU32(version))
                                      case Good(_) => NoHeader
                                      case BadPayload => if behind then Unparsable else NoHeader
                                      case UnknownKind => if behind then UnknownLine else NoHeader))
  {
    AdmittedThrough(c, Lines(raw), i, false, EmptyRecording());
    assert Lines(raw)[i..][0] == Lines(raw)[i];
    OtherStops(c, Lines(raw)[i..], HasHeader(c, Lines(raw)[..i]),
               PutAll(EmptyRecording(), Records(c, Lines(raw)[..i])));
  }

  lemma {:induction false} AdmittedThrough<M, S, E>(
      c: Codec<M, S, E>, lines: seq<string>, i: nat, seen: bool, r: Recording<M, S, E>)
    requires i <= |lines| && AllAdmitted(c, lines[..i], seen)
    ensures LoadLines(c, lines, seen, r) ==
            LoadLines(c, lines[i..], seen || HasHeader(c, lines[..i]), PutAll(r, Records(c, lines[..i])))
    decreases i
  {
    if i == 0 {
      assert lines[i..] == lines;
    } else {
      var front, rest := lines[..i], lines[1..];
      assert front[1..] == rest[..i - 1] && rest[i - 1..] == lines[i..];
      AdmittedStep(c, front, seen);
      HeaderStep(c, front);
      AdmittedLoads(c, lines, seen, r);
      AdmittedThrough(c, rest, i - 1, seen || IsHeader(c, lines[0]), PutAll(r, RecordsOf(c, lines[0])));
      PutConcat(r, RecordsOf(c, lines[0]), Records(c, rest[..i - 1]));
    }
  }

  lemma FirstOfWritten(lines: seq<string>, rest: string)
    requires AllLines(lines) && lines != []
    ensures Lines(Written(lines) + rest) == [lines[0]] + Lines(Written(lines[1..]) + rest) && AllLines(lines[1..])
  {
    var first, tail := lines[0], Written(lines[1..]) + rest;
    assert first in lines;
    assert Written(lines) + rest == first + "\n" + tail;
    LinesStep(first, tail);
    assert forall l :: l in lines[1..] ==> l in lines;
  }

  // ---------- behind the end of the session ----------

  predicate IsEnd<M, S, E>(c: Codec<M, S, E>, line: string) {
    !IsBlank(line) && match c.decode(Trim(line))
                      case Some(Good(SessionEnd)) => true
                      case _ => false
  }

  /** The records that load from lines behind a header; a malformed last line has none. */
  ghost function Loaded<M, S, E>(c: Codec<M, S, E>, lines: seq<string>): seq<Record<M, S, E>> {
    Records(c, if AllAdmitted(c, lines, true) || lines == [] then lines else lines[..|lines| - 1])
  }

  /** Up to the end of the session, and on. */
  lemma ThroughTheEnd<M, S, E>(c: Codec<M, S, E>, lines: seq<string>, i: nat)
    requires i < |lines| && IsEnd(c, lines[i]) && HasHeader(c, lines[..i]) && AllAdmitted(c, lines[..i], false)
    ensures LoadLines(c, lines, false, EmptyRecording()) ==
            LoadLines(c, lines[i + 1..], true, Amount(Records(c, lines[..i])))
  {
    var end := [lines[i]];
    assert lines[i..][0] == lines[i] && lines[i..][1..] == lines[i + 1..];
    AdmittedThrough(c, lines, i, false, EmptyRecording());
    PutsAmount(Records(c, lines[..i]));
    AdmittedLoads(c, lines[i..], true, Amount(Records(c, lines[..i])));
    assert RecordsOf(c, lines[i])[1..] == [];
  }

  /** Lines behind the end of a session are ignored, as documented, exactly when they all are admitted, or all but a
      malformed last one, and what they hold brings no sample, no event and no other metadata. */
  lemma TrailingIgnoredIff<M, S, E>(c: Codec<M, S, E>, raw: string, i: nat)
    requires i < |Lines(raw)| && IsEnd(c, Lines(raw)[i])
    requires HasHeader(c, Lines(raw)[..i]) && AllAdmitted(c, Lines(raw)[..i], false)
    ensures var before, rest := Records(c, Lines(raw)[..i]), Lines(raw)[i + 1..];
            Load(c, raw) == Ok(Amount(before)) <==>
              && (AllAdmitted(c, rest, true) || MalformedAtEnd(c, rest, true))
              && Samples(Loaded(c, rest)) == [] && Events(Loaded(c, rest)) == []
              && (LastMeta(Loaded(c, rest)).Some? ==> LastMeta(Loaded(c, rest)) == LastMeta(before))
  {
    var before, rest := Records(c, Lines(raw)[..i]), Lines(raw)[i + 1..];
    ThroughTheEnd(c, Lines(raw), i);
    LoadLinesIff(c, rest, true, Amount(before));
    PutsAmount(before);
    PutConcat(EmptyRecording(), before, Loaded(c, rest));
    PutsAmount(before + Loaded(c, rest));
    SameAmountIff(before, Loaded(c, rest));
  }

  lemma {:induction false} LinesAfter(lines: seq<string>, rest: string)
    requires AllLines(lines)
    ensures Lines(Written(lines) + rest) == lines + Lines(rest)
    decreases |lines|
  {
    if lines == [] {
      assert Written(lines) + rest == rest;
    } else {
      FirstOfWritten(lines, rest);
      LinesAfter(lines[1..], rest);
      FirstApart(lines, Lines(rest));
    }
  }

  lemma FirstApart(lines: seq<string>, more: seq<string>)
    requires lines != []
    ensures [lines[0]] + (lines[1..] + more) == lines + more
  {
  }

  /** So one blank line behind it is enough to make a malformed line an error. */
  lemma BlankBehindMalformed<M(!new), S(!new), E(!new)>(
      c: Codec<M, S, E>, records: seq<Record<M, S, E>>, bad: string)
    requires Lawful(c) && Plain(records) && IsLine(bad) && c.decode(bad).None?
    ensures Load(c, Container(c, records) + (bad + "\n" + "\n")) == Err(Unparsable)
  {
    var lines := Encoded(c.encode, [TheHeader()] + records);
    LawfulEncodes(c);
    forall l | l in lines ensures IsLine(l) {
      var i :| 0 <= i < |lines| && l == lines[i];
    }
    TrimLine(bad);
    LinesAfter(lines, bad + "\n" + "\n");
    LinesStep(bad, "\n");
    assert Lines("\n") == [""];
    assert [bad, ""] == [bad] + [""] && [bad, ""][1..] == [""];
    BadBehind(c, records, [bad, ""]);
  }
}
