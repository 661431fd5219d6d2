/** The streaming recorder: what it writes, when it flushes, and how little a crash can cost. */
module FdrRecorder {
  import opened Actions
  import opened TextLines
  import opened FdrLog

  /** The recorder's bookkeeping against the records it was given. `durable` is what flushes have put into the file;
      the rest waits in a buffer that may also be written out early, in part. */
  ghost predicate Books<M, S, E>(c: Codec<M, S, E>, records: seq<Record<M, S, E>>, durable: string, buffer: string,
                                 flushed: nat, sinceFlush: nat)
  {
    && Plain(records) && durable + buffer == Container(c, records)
    && flushed <= |records| && (durable == "" || durable == Container(c, records[..flushed]))
    && (durable == "" ==> flushed == 0)
    && |Samples(records)| <= |Samples(records[..flushed])| + sinceFlush && sinceFlush < FLUSH_EVERY_SAMPLES
  }

  lemma SamplesSnoc<M, S, E>(records: seq<Record<M, S, E>>, r: Record<M, S, E>)
    ensures Samples(records + [r]) == if r.Sample? then Samples(records) + [r.sample] else Samples(records)
    ensures Events(records + [r]) == if r.Event? then Events(records) + [r.event] else Events(records)
  {
  }

  /** Samples and events among the records, as counted. */
  ghost predicate Counts<M, S, E>(records: seq<Record<M, S, E>>, samples: nat, events: nat) {
    samples == |Samples(records)| && events == |Events(records)|
  }

  lemma CountsGrow<M, S, E>(records: seq<Record<M, S, E>>, r: Record<M, S, E>, samples: nat, events: nat)
    requires Counts(records, samples, events)
    ensures Counts(records + [r], samples + if r.Sample? then 1 else 0, events + if r.Event? then 1 else 0)
  {
  }

  /** One more line in the buffer, not flushed or flushed. */
  lemma BooksGrow<M, S, E>(c: Codec<M, S, E>, records: seq<Record<M, S, E>>, durable: string, buffer: string,
                           flushed: nat, sinceFlush: nat, r: Record<M, S, E>)
    requires Books(c, records, durable, buffer, flushed, sinceFlush) && !r.Header?
    ensures var more := sinceFlush + if r.Sample? then 1 else 0;
            var longer := buffer + c.encode(r) + "\n";
            && (more < FLUSH_EVERY_SAMPLES ==> Books(c, records + [r], durable, longer, flushed, more))
            && Books(c, records + [r], durable + longer, "", |records| + 1, 0)
  {
    var longer := buffer + c.encode(r) + "\n";
    ContainerSnoc(c, records, r);
    SamplesSnoc(records, r);
    assert (records + [r])[..flushed] == records[..flushed];
    assert durable + longer == durable + buffer + c.encode(r) + "\n";
    BooksFlushed(c, records + [r], durable + longer);
  }

  /** With everything in the file the books are balanced. */
  lemma BooksFlushed<M, S, E>(c: Codec<M, S, E>, records: seq<Record<M, S, E>>, durable: string)
    requires Plain(records) && durable == Container(c, records)
    ensures Books(c, records, durable, "", |records|, 0)
  {
    assert records[..|records|] == records && durable + "" == durable;
    ContainerNotEmpty(c, records);
  }

  /** Flushing moves the whole buffer into the file; the count of unflushed samples may be left as it is. */
  lemma BooksFlush<M, S, E>(c: Codec<M, S, E>, records: seq<Record<M, S, E>>, durable: string, buffer: string,
                            flushed: nat, sinceFlush: nat)
    requires Books(c, records, durable, buffer, flushed, sinceFlush)
    ensures Books(c, records, durable + buffer, "", |records|, sinceFlush)
  {
    BooksFlushed(c, records, durable + buffer);
    assert records[..|records|] == records;
  }

  lemma ContainerNotEmpty<M, S, E>(c: Codec<M, S, E>, records: seq<Record<M, S, E>>)
    ensures Container(c, records) != ""
  {
  }

  class StreamedRecorder<M, S, E> {
    const codec: Codec<M, S, E>
    var durable: string
    var buffer: string
    var samplesSinceFlush: nat
    var samplesWritten: nat
    var eventsWritten: nat
    var finished: bool
    ghost var records: seq<Record<M, S, E>>
    ghost var flushed: nat

    ghost predicate Valid()
      reads this
    {
      && Books(codec, records, durable, buffer, flushed, samplesSinceFlush)
      && Counts(records, samplesWritten, eventsWritten)
    }

    constructor (codec: Codec<M, S, E>, meta: M)
      ensures Valid() && this.codec == codec && records == [Meta(meta)] && durable == "" && !finished
    {
      this.codec := codec;
      durable, buffer := "", codec.encode(TheHeader()) + "\n" + codec.encode(Meta(meta)) + "\n";
      samplesSinceFlush, samplesWritten, eventsWritten, finished := 0, 0, 0, false;
      records, flushed := [Meta(meta)], 0;
      new;
      Opening(codec, meta);
    }

    method WriteLine(r: Record<M, S, E>)
      requires !r.Header?
      modifies this`buffer, this`records
      ensures buffer == old(buffer) + codec.encode(r) + "\n" && records == old(records) + [r]
    {
      buffer := buffer + codec.encode(r);
      buffer := buffer + "\n";
      records := records + [r];
    }

    method Flush()
      modifies this`durable, this`buffer, this`flushed
      ensures durable == old(durable) + old(buffer) && buffer == "" && flushed == |records|
    {
      durable, buffer, flushed := durable + buffer, "", |records|;
    }

    /** Every 32nd sample since the last such flush is flushed, with all before it. */
    method RecordSample(sample: S)
      requires Valid()
      modifies this
      ensures Valid() && records == old(records) + [Sample(sample)] && finished == old(finished)
      ensures if old(samplesSinceFlush) + 1 == FLUSH_EVERY_SAMPLES
              then durable == Container(codec, records) && buffer == "" && samplesSinceFlush == 0
              else durable == old(durable) && samplesSinceFlush == old(samplesSinceFlush) + 1
    {
      BooksGrow(codec, records, durable, buffer, flushed, samplesSinceFlush, Sample(sample));
      CountsGrow(records, Sample(sample), samplesWritten, eventsWritten);
      WriteLine(Sample(sample));
      samplesWritten := samplesWritten + 1;
      samplesSinceFlush := samplesSinceFlush + 1;
      if samplesSinceFlush >= FLUSH_EVERY_SAMPLES {
        Flush();
        samplesSinceFlush := 0;
      }
    }

    /** Events are never flushed on their own, and do not count towards the next flush. */
    method RecordEvent(event: E)
      requires Valid()
      modifies this
      ensures Valid() && records == old(records) + [Event(event)] && finished == old(finished)
      ensures durable == old(durable) && samplesSinceFlush == old(samplesSinceFlush)
    {
      BooksGrow(codec, records, durable, buffer, flushed, samplesSinceFlush, Event(event));
      CountsGrow(records, Event(event), samplesWritten, eventsWritten);
      WriteLine(Event(event));
      eventsWritten := eventsWritten + 1;
    }

    /** Ends the container once; a second call only flushes again. */
    method Finish()
      requires Valid()
      modifies this
      ensures Valid() && finished && buffer == "" && durable == Container(codec, records)
      ensures records == if old(finished) then old(records) else old(records) + [SessionEnd]
    {
      if !finished {
        BooksGrow(codec, records, durable, buffer, flushed, samplesSinceFlush, SessionEnd);
        CountsGrow(records, SessionEnd, samplesWritten, eventsWritten);
        WriteLine(SessionEnd);
        finished := true;
      }
      BooksFlush(codec, records, durable, buffer, flushed, samplesSinceFlush);
      Flush();
    }
  }

  lemma Opening<M, S, E>(c: Codec<M, S, E>, meta: M)
    ensures var records: seq<Record<M, S, E>> := [Meta(meta)];
            && Books(c, records, "", c.encode(TheHeader()) + "\n" + c.encode(Meta(meta)) + "\n", 0, 0)
            && Samples(records) == [] && Events(records) == []
  {
    var none: seq<Record<M, S, E>> := [];
    var records: seq<Record<M, S, E>> := [Meta(meta)];
    assert none + records == records && records[..0] == none;
    SamplesSnoc(none, Meta(meta));
    ContainerSnoc(c, none, Meta(meta));
    var header := [TheHeader<M, S, E>()];
    assert header + none == header;
    assert Encoded(c.encode, header) == [c.encode(TheHeader())];
    assert [c.encode(TheHeader())][1..] == [];
    assert Written([c.encode(TheHeader())]) == c.encode(TheHeader()) + "\n";
    var text := c.encode(TheHeader()) + "\n" + c.encode(Meta(meta)) + "\n";
    assert "" + text == text;
  }

  // ---------- what a crash costs ----------

  lemma HoldsAtLeast<M, S, E>(c: Codec<M, S, E>, records: seq<Record<M, S, E>>, p: string, n: nat, flushed: nat)
    requires Holds(c, records, p, n) && flushed <= |records| && Container(c, records[..flushed]) <= p
    ensures flushed <= n
  {
  }

  /** Whatever beginning of the buffered text a crash leaves in the file: if the header line is whole, which it is once
      anything was flushed, the file loads, and fewer than 32 of the samples recorded are missing, all of them the
      latest. */
  lemma CrashLosesFew<M(!new), S(!new), E(!new)>(c: Codec<M, S, E>, records: seq<Record<M, S, E>>, durable: string,
      buffer: string, flushed: nat, sinceFlush: nat, p: string)
    requires Lawful(c) && Books(c, records, durable, buffer, flushed, sinceFlush)
    requires durable <= p <= durable + buffer
    ensures durable != "" ==> c.encode(TheHeader()) <= p
    ensures Load(c, p).Ok? <==> c.encode(TheHeader()) <= p
    ensures Load(c, p).Ok? ==>
              && Load(c, p).value.samples <= Samples(records) && Load(c, p).value.events <= Events(records)
              && |Samples(records)| < |Load(c, p).value.samples| + FLUSH_EVERY_SAMPLES
  {
    CrashRecovery(c, records, p);
    if durable != "" { HeaderComesFirst(c, records[..flushed]); }
    if c.encode(TheHeader()) <= p {
      var n: nat :| Holds(c, records, p, n) && Load(c, p) == Ok(Amount(records[..n]))
                    && Samples(records[..n]) <= Samples(records) && Events(records[..n]) <= Events(records);
      if durable != "" {
        HoldsAtLeast(c, records, p, n, flushed);
        PrefixAmounts(records[..n], flushed);
        assert records[..n][..flushed] == records[..flushed];
      } else {
        assert records[..0] == [];
      }
    }
  }
}
