/** The streamed flight-data container: a header, then one record per line, recoverable after a crash. */
module FdrLog {
  import opened Actions
  import opened TextLines

  const FORMAT_VERSION: nat := 2
  const FLUSH_EVERY_SAMPLES: nat := 32

  /** A whole number as the header may hold it; one that is missing or larger reads as 0. */
  type U64 = n: nat | n < 0x1_0000_0000_0000_0000

  /** The version that is compared: the low 32 bits. */
  function AsU32(version: U64): nat {
    version % 0x1_0000_0000
  }

  /** One line of the container. */
  datatype Record<M, S, E> =
    | Header(known: bool, version: U64)
    | Meta(meta: M)
    | Sample(sample: S)
    | Event(event: E)
    | SessionEnd

  /** What a line that is valid JSON may turn out to be: a record, a record whose payload does not fit, or neither. */
  datatype Parsed<M, S, E> = Good(record: Record<M, S, E>) | BadPayload | UnknownKind

  datatype Codec<!M, !S, !E> = Codec(encode: Record<M, S, E> -> string, decode: string -> Option<Parsed<M, S, E>>)

  datatype FdrError = Unparsable | ForeignFormat | VersionMismatch(got: nat) | NoHeader | UnknownLine

  datatype Recording<M, S, E> = Recording(meta: Option<M>, samples: seq<S>, events: seq<E>)

  function EmptyRecording<M, S, E>(): Recording<M, S, E> {
    Recording(None, [], [])
  }

  /** What the serialisation must guarantee for one record. */
  ghost predicate LineLaw<M, S, E>(c: Codec<M, S, E>, r: Record<M, S, E>) {
    && IsLine(c.encode(r)) && c.decode(c.encode(r)) == Some(Good(r))
    && forall k :: 0 <= k < |c.encode(r)| ==> c.decode(c.encode(r)[..k]).None?
  }

  ghost predicate Lawful<M(!new), S(!new), E(!new)>(c: Codec<M, S, E>) {
    forall r :: LineLaw(c, r)
  }

  function TheHeader<M, S, E>(): Record<M, S, E> {
    Header(true, FORMAT_VERSION)
  }

  lemma LawfulEncodes<M(!new), S(!new), E(!new)>(c: Codec<M, S, E>)
    requires Lawful(c)
    ensures EncodesLines(c.encode)
  {
    forall r ensures IsLine(c.encode(r)) { assert LineLaw(c, r); }
  }

  /** The file a recorder has produced: the header, then the records. */
  function Container<M, S, E>(c: Codec<M, S, E>, records: seq<Record<M, S, E>>): string {
    Text(c.encode, [TheHeader()] + records)
  }

  // ---------- what records amount to ----------

  function Put<M, S, E>(r: Recording<M, S, E>, record: Record<M, S, E>): Recording<M, S, E> {
    match record
    case Header(_, _) => r
    case Meta(meta) => r.(meta := Some(meta))
    case Sample(sample) => r.(samples := r.samples + [sample])
    case Event(event) => r.(events := r.events + [event])
    case SessionEnd => r
  }

  function PutAll<M, S, E>(r: Recording<M, S, E>, records: seq<Record<M, S, E>>): Recording<M, S, E>
    decreases |records|
  {
    if records == [] then r else PutAll(Put(r, records[0]), records[1..])
  }

  function Samples<M, S, E>(records: seq<Record<M, S, E>>): seq<S> {
    if records == [] then []
    else
      var n := |records| - 1;
      Samples(records[..n]) + (if records[n].Sample? then [records[n].sample] else [])
  }

  function Events<M, S, E>(records: seq<Record<M, S, E>>): seq<E> {
    if records == [] then []
    else
      var n := |records| - 1;
      Events(records[..n]) + (if records[n].Event? then [records[n].event] else [])
  }

  function LastMeta<M, S, E>(records: seq<Record<M, S, E>>): Option<M> {
    if records == [] then None
    else
      var n := |records| - 1;
      if records[n].Meta? then Some(records[n].meta) else LastMeta(records[..n])
  }

  /** What a list of records should load as: the samples and the events in order, and the latest metadata. */
  function Amount<M, S, E>(records: seq<Record<M, S, E>>): Recording<M, S, E> {
    Recording(LastMeta(records), Samples(records), Events(records))
  }

  lemma {:induction false} PutConcat<M, S, E>(r: Recording<M, S, E>, a: seq<Record<M, S, E>>, b: seq<Record<M, S, E>>)
    ensures PutAll(r, a + b) == PutAll(PutAll(r, a), b)
    decreases |a|
  {
    if a == [] {
      assert a + b == b;
    } else {
      assert (a + b)[1..] == a[1..] + b;
      PutConcat(Put(r, a[0]), a[1..], b);
    }
  }

  lemma {:induction false} PutsAmount<M, S, E>(records: seq<Record<M, S, E>>)
    ensures PutAll(EmptyRecording(), records) == Amount(records)
    decreases |records|
  {
    if records != [] {
      var n := |records| - 1;
      var last := [records[n]];
      PutsAmount(records[..n]);
      assert records == records[..n] + last && last[1..] == [];
      PutConcat(EmptyRecording<M, S, E>(), records[..n], last);
    }
  }

  /** A shorter list of records amounts to a beginning of the samples and of the events. */
  lemma {:induction false} PrefixAmounts<M, S, E>(records: seq<Record<M, S, E>>, k: nat)
    requires k <= |records|
    ensures Samples(records[..k]) <= Samples(records) && Events(records[..k]) <= Events(records)
    decreases |records|
  {
    if k == |records| {
      assert records[..k] == records;
    } else {
      var n := |records| - 1;
      assert records[..n][..k] == records[..k];
      PrefixAmounts(records[..n], k);
    }
  }

  // ---------- loading ----------

  /** One decoded line, given whether a header has been seen. */
  function Take<M, S, E>(p: Parsed<M, S, E>, seen: bool): Result<Record<M, S, E>, FdrError> {
    if p.Good? && p.record.Header? then
      if !p.record.known then Err(ForeignFormat)
      else if AsU32(p.record.version) != FORMAT_VERSION then Err(VersionMismatch(AsU32(p.record.version)))
      else Ok(p.record)
    else if !seen then Err(NoHeader)
    else match p
      case Good(record) => Ok(record)
      case BadPayload => Err(Unparsable)
      case UnknownKind => Err(UnknownLine)
  }

  function LoadLines<M, S, E>(
      c: Codec<M, S, E>, lines: seq<string>, seen: bool, r: Recording<M, S, E>): Result<Recording<M, S, E>, FdrError>
    decreases |lines|
  {
    if lines == [] then if seen then Ok(r) else Err(NoHeader)
    else
      var line := Trim(lines[0]);
      if line == "" then LoadLines(c, lines[1..], seen, r)
      else match c.decode(line)
        case None => if |lines| == 1 then LoadLines(c, [], seen, r) else Err(Unparsable)
        case Some(parsed) =>
          match Take(parsed, seen)
          case Err(error) => Err(error)
          case Ok(record) => LoadLines(c, lines[1..], seen || record.Header?, Put(r, record))
  }

  function Load<M, S, E>(c: Codec<M, S, E>, raw: string): Result<Recording<M, S, E>, FdrError> {
    LoadLines(c, Lines(raw), false, EmptyRecording())
  }

  method LoadV2<M, S, E>(c: Codec<M, S, E>, raw: string) returns (result: Result<Recording<M, S, E>, FdrError>)
    ensures result == Load(c, raw)
  {
    var recording := EmptyRecording<M, S, E>();
    var sawHeader := false;
    var lines := Lines(raw);
    var idx := 0;
    var torn := false;
    assert lines[0..] == lines;
    while idx < |lines| && !torn
      invariant idx <= |lines|
      invariant !torn ==> Load(c, raw) == LoadLines(c, lines[idx..], sawHeader, recording)
      invariant torn ==> Load(c, raw) == LoadLines(c, [], sawHeader, recording)
      decreases |lines| - idx, !torn
    {
      var line := Trim(lines[idx]);
      var isLast := idx + 1 == |lines|;
      assert lines[idx..][1..] == lines[idx + 1..];
      if line != "" {
        var parsed := c.decode(line);
        if parsed.None? {
          if !isLast {
            return Err(Unparsable);
          }
          torn := true;
        } else {
          var taken := Take(parsed.value, sawHeader);
          if taken.Err? {
            return Err(taken.error);
          }
          sawHeader := sawHeader || taken.value.Header?;
          recording := Put(recording, taken.value);
        }
      }
      if !torn {
        idx := idx + 1;
      }
    }
    assert !torn ==> lines[idx..] == [];
    result := if sawHeader then Ok(recording) else Err(NoHeader);
  }

  // ---------- crash recovery ----------

  /** Records as a recorder writes them after its header. */
  predicate Plain<M, S, E>(records: seq<Record<M, S, E>>) {
    forall i :: 0 <= i < |records| ==> !records[i].Header?
  }

  /** Whole lines after the header load as their records, whatever is loaded behind them. */
  lemma {:induction false} LoadWhole<M(!new), S(!new), E(!new)>(
      c: Codec<M, S, E>, records: seq<Record<M, S, E>>, rest: seq<string>, r: Recording<M, S, E>)
    requires Lawful(c) && Plain(records)
    ensures LoadLines(c, Encoded(c.encode, records) + rest, true, r) == LoadLines(c, rest, true, PutAll(r, records))
    decreases |records|
  {
    var lines := Encoded(c.encode, records) + rest;
    if records == [] {
      assert lines == rest;
    } else {
      var x := records[0];
      assert LineLaw(c, x);
      TrimLine(c.encode(x));
      assert lines[0] == c.encode(x) && lines[1..] == Encoded(c.encode, records[1..]) + rest;
      LoadWhole(c, records[1..], rest, Put(r, x));
    }
  }

  /** The header's line opens the container. */
  lemma LoadHeader<M(!new), S(!new), E(!new)>(c: Codec<M, S, E>, rest: seq<string>)
    requires Lawful(c)
    ensures LoadLines(c, [c.encode(TheHeader())] + rest, false, EmptyRecording()) ==
            LoadLines(c, rest, true, EmptyRecording())
  {
    assert LineLaw(c, TheHeader());
    TrimLine(c.encode(TheHeader()));
    assert ([c.encode(TheHeader())] + rest)[1..] == rest;
  }

  /** The last line, torn or not: the record is all there, or nothing is. */
  lemma LoadTail<M(!new), S(!new), E(!new)>(c: Codec<M, S, E>, x: Record<M, S, E>, tail: string, r: Recording<M, S, E>)
    requires Lawful(c) && !x.Header? && tail <= c.encode(x) && tail != ""
    ensures LoadLines(c, [tail], true, r) == Ok(if tail == c.encode(x) then Put(r, x) else r)
  {
    TailDecodes(c, x, tail);
    assert [tail][1..] == [];
  }

  lemma TailDecodes<M(!new), S(!new), E(!new)>(c: Codec<M, S, E>, x: Record<M, S, E>, tail: string)
    requires Lawful(c) && tail <= c.encode(x) && tail != ""
    ensures Trim(tail) != ""
    ensures c.decode(Trim(tail)) == if tail == c.encode(x) then Some(Good(x)) else None
  {
    assert LineLaw(c, x);
    TrimPrefix(c.encode(x), tail);
    if tail == c.encode(x) {
      TrimLine(tail);
    } else {
      assert Trim(tail) == c.encode(x)[..|Trim(tail)|];
    }
  }

  /** A beginning of a container is the torn header, or the header, some whole records, and a beginning of the next. */
  lemma ContainerSplits<M, S, E>(
      c: Codec<M, S, E>, records: seq<Record<M, S, E>>, p: string) returns (k: nat, tail: string)
    requires p <= Container(c, records)
    ensures if k == 0 then p == tail && tail <= c.encode(TheHeader())
            else k <= |records| + 1 && p == Written(Encoded(c.encode, [TheHeader()] + records[..k - 1])) + tail
                 && if k <= |records| then tail <= c.encode(records[k - 1]) else tail == ""
  {
    var all := [TheHeader()] + records;
    k, tail := PrefixSplits(Encoded(c.encode, all), p);
    if k == 0 {
      assert Encoded(c.encode, all)[..0] == [];
    } else {
      assert Encoded(c.encode, all)[..k] == Encoded(c.encode, [TheHeader()] + records[..k - 1]);
    }
  }

  /** A whole header and whole records, with perhaps one more line behind them. */
  lemma LoadThrough<M(!new), S(!new), E(!new)>(c: Codec<M, S, E>, whole: seq<Record<M, S, E>>, tail: string)
    requires Lawful(c) && Plain(whole) && NoBreak(tail)
    ensures Load(c, Container(c, whole) + tail) ==
            LoadLines(c, if tail == "" then [] else [tail], true, PutAll(EmptyRecording(), whole))
  {
    var all, rest := [TheHeader()] + whole, if tail == "" then [] else [tail];
    LawfulEncodes(c);
    LinesOfText(c.encode, all, tail);
    assert Encoded(c.encode, all) + rest == [c.encode(TheHeader())] + (Encoded(c.encode, whole) + rest);
    LoadHeader(c, Encoded(c.encode, whole) + rest);
    LoadWhole(c, whole, rest, EmptyRecording());
  }

  /** A beginning that holds the header line whole loads as the records of its whole lines. */
  lemma LoadRecovered<M(!new), S(!new), E(!new)>(c: Codec<M, S, E>, records: seq<Record<M, S, E>>, k: nat, tail: string)
    requires Lawful(c) && Plain(records) && k <= |records|
    requires if k < |records| then tail <= c.encode(records[k]) else tail == ""
    ensures var n := if k < |records| && tail == c.encode(records[k]) then k + 1 else k;
            Load(c, Container(c, records[..k]) + tail) == Ok(PutAll(EmptyRecording(), records[..n]))
  {
    var whole := records[..k];
    LawfulEncodes(c);
    TailIsUnbroken(c.encode, records, k, tail);
    LoadThrough(c, whole, tail);
    if tail != "" {
      LoadTail(c, records[k], tail, PutAll(EmptyRecording(), whole));
      PutOneMore(records, k);
    } else if k < |records| {
      assert LineLaw(c, records[k]);
    }
  }

  lemma PutOneMore<M, S, E>(records: seq<Record<M, S, E>>, k: nat)
    requires k < |records|
    ensures PutAll(EmptyRecording(), records[..k + 1]) == Put(PutAll(EmptyRecording(), records[..k]), records[k])
  {
    assert records[..k + 1] == records[..k] + [records[k]];
    PutConcat(EmptyRecording(), records[..k], [records[k]]);
    assert [records[k]][1..] == [];
  }

  /** A beginning within the header line loads just when it is the whole line. */
  lemma LoadTornHeader<M(!new), S(!new), E(!new)>(c: Codec<M, S, E>, p: string)
    requires Lawful(c) && p <= c.encode(TheHeader())
    ensures Load(c, p) == if p == c.encode(TheHeader()) then Ok(EmptyRecording()) else Err(NoHeader)
  {
    var header: Record<M, S, E> := TheHeader();
    assert LineLaw(c, header);
    assert NoBreak(p) by { assert forall i :: 0 <= i < |p| ==> p[i] == c.encode(header)[i]; }
    LinesOfWritten([], p);
    assert Written([]) + p == p;
    if p == c.encode(header) {
      LoadHeader(c, []);
      assert [p] + [] == [p];
    } else if p != "" {
      TailDecodes(c, header, p);
      assert LoadLines(c, [p], false, EmptyRecording()) == LoadLines(c, [], false, EmptyRecording());
    }
  }

  /** How many records a beginning of the container holds whole, the break after the last not needed. */
  ghost predicate Holds<M, S, E>(c: Codec<M, S, E>, records: seq<Record<M, S, E>>, p: string, n: nat) {
    && n <= |records| && Container(c, records[..n]) <= p + "\n"
    && forall j :: 0 <= j <= |records| && Container(c, records[..j]) <= p + "\n" ==> j <= n
  }

  lemma ContainerSnoc<M, S, E>(c: Codec<M, S, E>, records: seq<Record<M, S, E>>, x: Record<M, S, E>)
    ensures Container(c, records + [x]) == Container(c, records) + c.encode(x) + "\n"
  {
    assert [TheHeader()] + (records + [x]) == [TheHeader()] + records + [x];
    TextSnoc(c.encode, [TheHeader()] + records, x);
  }

  lemma ContainerLonger<M, S, E>(c: Codec<M, S, E>, records: seq<Record<M, S, E>>, k: nat, j: nat)
    requires k < j <= |records|
    ensures |Container(c, records[..j])| >= |Container(c, records[..k])| + |c.encode(records[k])| + 1
  {
    var all := [TheHeader()] + records;
    assert all[..j + 1] == [TheHeader()] + records[..j] && all[..k + 1] == [TheHeader()] + records[..k];
    TextLonger(c.encode, all, k + 1, j + 1);
  }

  lemma HeldExactly<M(!new), S(!new), E(!new)>(c: Codec<M, S, E>, records: seq<Record<M, S, E>>, k: nat, tail: string)
    requires Lawful(c) && k <= |records|
    requires if k < |records| then tail <= c.encode(records[k]) else tail == ""
    ensures var p := Container(c, records[..k]) + tail;
            Holds(c, records, p, if k < |records| && tail == c.encode(records[k]) then k + 1 else k)
  {
    var p := Container(c, records[..k]) + tail;
    var n := if k < |records| && tail == c.encode(records[k]) then k + 1 else k;
    if n == k + 1 {
      assert records[..n] == records[..k] + [records[k]];
      ContainerSnoc(c, records[..k], records[k]);
      assert Container(c, records[..k]) + tail + "\n" == p + "\n";
    }
    forall j | 0 <= j <= |records| && Container(c, records[..j]) <= p + "\n" ensures j <= n {
      if j > n { ContainerLonger(c, records, n, j); }
    }
  }

  /** Crash recovery: a beginning of a written container loads without error exactly when it holds the whole header
      line, and then as just the records it holds whole; so its samples and events are beginnings of those written. */
  lemma CrashRecovery<M(!new), S(!new), E(!new)>(c: Codec<M, S, E>, records: seq<Record<M, S, E>>, p: string)
    requires Lawful(c) && Plain(records) && p <= Container(c, records)
    ensures Load(c, p).Ok? <==> c.encode(TheHeader()) <= p
    ensures c.encode(TheHeader()) <= p ==>
              exists n: nat :: Holds(c, records, p, n) && Load(c, p) == Ok(Amount(records[..n]))
                               && Samples(records[..n]) <= Samples(records) && Events(records[..n]) <= Events(records)
    ensures !(c.encode(TheHeader()) <= p) ==> Load(c, p) == Err(NoHeader)
  {
    var k, tail := ContainerSplits(c, records, p);
    if k == 0 {
      LoadTornHeader(c, p);
      if p == c.encode(TheHeader()) {
        HeaderAlone(c, records, p);
        PrefixAmounts(records, 0);
        assert records[..0] == [];
        assert Amount(records[..0]) == EmptyRecording<M, S, E>();
      }
    } else {
      var n := RecordsRecovered(c, records, k - 1, tail);
      assert p == Container(c, records[..k - 1]) + tail;
      HeaderComesFirst(c, records[..k - 1]);
    }
  }

  lemma HeaderComesFirst<M, S, E>(c: Codec<M, S, E>, records: seq<Record<M, S, E>>)
    ensures c.encode(TheHeader()) <= Container(c, records)
  {
    assert Encoded(c.encode, [TheHeader()] + records)[0] == c.encode(TheHeader());
  }

  /** Behind a whole header line: the records held whole, and nothing of the others. */
  lemma RecordsRecovered<M(!new), S(!new), E(!new)>(
      c: Codec<M, S, E>, records: seq<Record<M, S, E>>, k: nat, tail: string) returns (n: nat)
    requires Lawful(c) && Plain(records) && k <= |records|
    requires if k < |records| then tail <= c.encode(records[k]) else tail == ""
    ensures var p := Container(c, records[..k]) + tail;
            && Holds(c, records, p, n) && Load(c, p) == Ok(Amount(records[..n]))
            && Samples(records[..n]) <= Samples(records) && Events(records[..n]) <= Events(records)
  {
    n := if k < |records| && tail == c.encode(records[k]) then k + 1 else k;
    LoadRecovered(c, records, k, tail);
    HeldExactly(c, records, k, tail);
    PrefixAmounts(records, n);
    PutsAmount(records[..n]);
  }

  lemma HeaderAlone<M, S, E>(c: Codec<M, S, E>, records: seq<Record<M, S, E>>, p: string)
    requires p == c.encode(TheHeader())
    ensures Holds(c, records, p, 0)
  {
    assert records[..0] == [] && [TheHeader()] + records[..0] == [TheHeader<M, S, E>()];
    assert Encoded(c.encode, [TheHeader<M, S, E>()]) == [p] && [p][1..] == [];
    assert Written([p]) == p + "\n" + Written([p][1..]) == p + "\n";
    forall j | 0 <= j <= |records| && Container(c, records[..j]) <= p + "\n" ensures j <= 0 {
      if j > 0 { ContainerLonger(c, records, 0, j); }
    }
  }

  /** Nothing lost without a crash: the finished container loads as all its records. */
  lemma RoundTrip<M(!new), S(!new), E(!new)>(c: Codec<M, S, E>, records: seq<Record<M, S, E>>)
    requires Lawful(c) && Plain(records)
    ensures Load(c, Container(c, records)) == Ok(Amount(records))
  {
    PutsAmount(records);
    LoadRecovered(c, records, |records|, "");
    assert records[..|records|] == records;
    assert Container(c, records) + "" == Container(c, records);
  }

  // ---------- what does not load ----------

  /** A header that is taken: this format, and this version in its low 32 bits. */
  predicate Accepts<M, S, E>(first: Record<M, S, E>) {
    first.Header? && first.known && AsU32(first.version) == FORMAT_VERSION
  }

  /** A file loads only behind a header that is taken, and then as behind the one that is written: any other first
      record is refused by name. */
  lemma OnlyBehindTheHeader<M(!new), S(!new), E(!new)>(c: Codec<M, S, E>, first: Record<M, S, E>, rest: string)
    requires Lawful(c)
    ensures Load(c, c.encode(first) + "\n" + rest) ==
            if Accepts(first) then LoadLines(c, Lines(rest), true, EmptyRecording())
            else Err(if !first.Header? then NoHeader
                     else if !first.known then ForeignFormat else VersionMismatch(AsU32(first.version)))
  {
    assert LineLaw(c, first);
    TrimLine(c.encode(first));
    LinesStep(c.encode(first), rest);
  }

  /** A container of another version is refused, as a version mismatch should be, exactly when its version does not wrap
      to this one; otherwise it loads as if it were of this one. */
  lemma OtherVersionRefusedIff<M(!new), S(!new), E(!new)>(
      c: Codec<M, S, E>, version: U64, records: seq<Record<M, S, E>>)
    requires Lawful(c) && Plain(records) && version != FORMAT_VERSION
    ensures var got := Load(c, c.encode(Header(true, version)) + "\n" + Text(c.encode, records));
            && (got.Err? <==> version % 0x1_0000_0000 != FORMAT_VERSION)
            && got == if got.Err? then Err(VersionMismatch(version % 0x1_0000_0000)) else Ok(Amount(records))
  {
    OnlyBehindTheHeader(c, Header(true, version), Text(c.encode, records));
    LawfulEncodes(c);
    LinesOfText(c.encode, records, "");
    assert Text(c.encode, records) + "" == Text(c.encode, records);
    LoadWhole(c, records, [], EmptyRecording());
    PutsAmount(records);
  }

  /** Version 4 294 967 298 is taken for version 2. */
  lemma WrappedVersionIsTaken<M(!new), S(!new), E(!new)>(c: Codec<M, S, E>, records: seq<Record<M, S, E>>)
    requires Lawful(c) && Plain(records)
    ensures Load(c, c.encode(Header(true, 4_294_967_298)) + "\n" + Text(c.encode, records)) == Ok(Amount(records))
  {
    OtherVersionRefusedIff(c, 4_294_967_298, records);
  }

  // ---------- where loading is more lenient than documented ----------

  /** Lines after the end of the session are not ignored: they load like any others. */
  lemma LinesAfterTheEndCount<M(!new), S(!new), E(!new)>(
      c: Codec<M, S, E>, before: seq<Record<M, S, E>>, after: seq<Record<M, S, E>>)
    requires Lawful(c) && Plain(before) && Plain(after)
    ensures Load(c, Container(c, before + [SessionEnd] + after)) == Ok(Amount(before + after))
  {
    RoundTrip(c, before + [SessionEnd] + after);
    PutsAmount(before + [SessionEnd] + after);
    PutsAmount(before + after);
    var end: seq<Record<M, S, E>> := [SessionEnd];
    PutConcat(EmptyRecording(), before + end, after);
    PutConcat(EmptyRecording(), before, end);
    PutConcat(EmptyRecording(), before, after);
    assert end[1..] == [];
  }

  lemma {:induction false} AmountConcat<M, S, E>(a: seq<Record<M, S, E>>, b: seq<Record<M, S, E>>)
    ensures Samples(a + b) == Samples(a) + Samples(b) && Events(a + b) == Events(a) + Events(b)
    ensures LastMeta(a + b) == if LastMeta(b).Some? then LastMeta(b) else LastMeta(a)
    decreases |b|
  {
    if b == [] {
      assert a + b == a;
    } else {
      var n := |b| - 1;
      assert (a + b)[..|a + b| - 1] == a + b[..n];
      AmountConcat(a, b[..n]);
    }
  }

  lemma SameAmountIff<M, S, E>(a: seq<Record<M, S, E>>, b: seq<Record<M, S, E>>)
    ensures Amount(a + b) == Amount(a) <==>
            Samples(b) == [] && Events(b) == [] && (LastMeta(b).Some? ==> LastMeta(b) == LastMeta(a))
  {
    AmountConcat(a, b);
    assert Samples(a) + Samples(b) == Samples(a) <==> Samples(b) == [] by {
      assert |Samples(a) + Samples(b)| == |Samples(a)| + |Samples(b)|;
      if Samples(b) == [] { assert Samples(a) + Samples(b) == Samples(a); }
    }
    assert Events(a) + Events(b) == Events(a) <==> Events(b) == [] by {
      assert |Events(a) + Events(b)| == |Events(a)| + |Events(b)|;
      if Events(b) == [] { assert Events(a) + Events(b) == Events(a); }
    }
  }

  /** A malformed last line is dropped even when it is complete, break and all; before the last line it is an error. */
  lemma MalformedLine<M(!new), S(!new), E(!new)>(
      c: Codec<M, S, E>, records: seq<Record<M, S, E>>, bad: string, next: Record<M, S, E>)
    requires Lawful(c) && Plain(records) && IsLine(bad) && c.decode(bad).None?
    ensures Load(c, Container(c, records) + bad + "\n") == Ok(Amount(records))
    ensures Load(c, Container(c, records) + (bad + "\n" + c.encode(next) + "\n")) == Err(Unparsable)
  {
    var all := [TheHeader()] + records;
    LawfulEncodes(c);
    TrimLine(bad);
    assert LineLaw(c, next);
    LinesBehind(c, all, [bad]);
    LinesBehind(c, all, [bad, c.encode(next)]);
    assert [bad][1..] == [] && [bad, c.encode(next)][1..] == [c.encode(next)] && [c.encode(next)][1..] == [];
    assert Written([c.encode(next)]) == c.encode(next) + "\n";
    assert Written([bad, c.encode(next)]) == bad + "\n" + c.encode(next) + "\n";
    assert Written([bad]) == bad + "\n";
    assert Container(c, records) + bad + "\n" == Container(c, records) + Written([bad]);
    PutsAmount(records);
    BadBehind(c, records, [bad]);
    BadBehind(c, records, [bad, c.encode(next)]);
  }

  lemma LinesBehind<M(!new), S(!new), E(!new)>(c: Codec<M, S, E>, records: seq<Record<M, S, E>>, more: seq<string>)
    requires EncodesLines(c.encode) && AllLines(more)
    ensures Lines(Text(c.encode, records) + Written(more)) == Encoded(c.encode, records) + more
  {
    var lines := Encoded(c.encode, records);
    forall l | l in lines + more ensures IsLine(l) {
      if l in lines { var i :| 0 <= i < |records| && l == c.encode(records[i]); }
    }
    WrittenConcat(lines, more);
    LinesOfWritten(lines + more, "");
    assert Written(lines + more) + "" == Written(lines + more);
    assert lines + more + [] == lines + more;
  }

  lemma BadLine<M, S, E>(c: Codec<M, S, E>, more: seq<string>, r: Recording<M, S, E>)
    requires more != [] && Trim(more[0]) != "" && c.decode(Trim(more[0])).None?
    ensures LoadLines(c, more, true, r) == if |more| == 1 then Ok(r) else Err(Unparsable)
  {
  }

  lemma BadBehind<M(!new), S(!new), E(!new)>(c: Codec<M, S, E>, records: seq<Record<M, S, E>>, more: seq<string>)
    requires Lawful(c) && Plain(records) && more != [] && Trim(more[0]) != "" && c.decode(Trim(more[0])).None?
    ensures LoadLines(c, Encoded(c.encode, [TheHeader()] + records) + more, false, EmptyRecording()) ==
            if |more| == 1 then Ok(PutAll(EmptyRecording(), records)) else Err(Unparsable)
  {
    var lines, header := Encoded(c.encode, records) + more, c.encode(TheHeader());
    assert Encoded(c.encode, [TheHeader()] + records) + more == [header] + lines;
    LoadHeader(c, lines);
    LoadWhole(c, records, more, EmptyRecording());
    BadLine(c, more, PutAll(EmptyRecording(), records));
  }

  // ---------- a codec that meets the law ----------

  function Tag(r: Record<nat, nat, nat>): char {
    match r
    case Header(known, _) => if known then 'H' else 'h'
    case Meta(_) => 'm'
    case Sample(_) => 's'
    case Event(_) => 'e'
    case SessionEnd => 'x'
  }

  function Number(r: Record<nat, nat, nat>): nat {
    match r
    case Header(_, version) => version
    case Meta(n) => n
    case Sample(n) => n
    case Event(n) => n
    case SessionEnd => 0
  }

  function Untag(tag: char, n: nat): Parsed<nat, nat, nat> {
    if tag == 'H' || tag == 'h' then (if n < 0x1_0000_0000_0000_0000 then Good(Header(tag == 'H', n)) else UnknownKind)
    else if tag == 'm' then Good(Meta(n))
    else if tag == 's' then Good(Sample(n))
    else if tag == 'e' then Good(Event(n))
    else if tag == 'x' then (if n == 0 then Good(SessionEnd) else BadPayload)
    else UnknownKind
  }

  /** A tag and a unary number between braces. */
  function Unary(): Codec<nat, nat, nat> {
    Codec(
      (r: Record<nat, nat, nat>) => "{" + [Tag(r)] + Ones(Number(r)) + "}",
      (s: string) =>
        if |s| >= 3 && s[0] == '{' && s[|s| - 1] == '}' && s[2..|s| - 1] == Ones(|s| - 3)
        then Some(Untag(s[1], |s| - 3)) else None)
  }

  /** So the law can be met. */
  lemma UnaryIsLawful()
    ensures Lawful(Unary())
  {
    forall r: Record<nat, nat, nat> ensures LineLaw(Unary(), r) {
      var n := Number(r);
      var s := "{" + [Tag(r)] + Ones(n) + "}";
      assert s[2..|s| - 1] == Ones(n) && s[1] == Tag(r);
      assert forall i :: 0 <= i < |s| ==> s[i] == '{' || s[i] == '1' || s[i] == '}' || s[i] == Tag(r);
      forall k | 0 <= k < |s| ensures Unary().decode(s[..k]).None? {
        if k >= 3 { assert s[..k][k - 1] == '1'; }
      }
    }
  }
}
