/** The database dump: pg_dump, the optional gzip stage and the destination, three processes joined by
    rendezvous pipes, and the error that travels with the end of the stream. */
module DumpPipeline {
  import opened Text
  import opened KeySpace

  // ---------- gzip, from outside ----------

  /** A stream encoder: what it emits for a chunk may depend on all chunks before it. */
  datatype Encoder = Encoder(feed: (seq<Bytes>, Bytes) -> Bytes, finish: seq<Bytes> -> Bytes, decode: Bytes -> Option<Bytes>)

  function Flatten(chunks: seq<Bytes>): Bytes {
    if chunks == [] then [] else Flatten(chunks[..|chunks|-1]) + chunks[|chunks|-1]
  }

  function Emitted(enc: Encoder, chunks: seq<Bytes>): Bytes {
    if chunks == [] then []
    else Emitted(enc, chunks[..|chunks|-1]) + enc.feed(chunks[..|chunks|-1], chunks[|chunks|-1])
  }

  /** The whole stream for some chunks. */
  function Stream(enc: Encoder, chunks: seq<Bytes>): Bytes {
    Emitted(enc, chunks) + enc.finish(chunks)
  }

  /** Decoding a closed stream gives back what was fed. */
  ghost predicate Lawful(enc: Encoder) {
    forall chunks: seq<Bytes> :: enc.decode(Stream(enc, chunks)) == Some(Flatten(chunks))
  }

  /** Such encoders exist. */
  lemma {:induction false} StoredEncoderIsLawful()
    ensures Lawful(Encoder((h: seq<Bytes>, c: Bytes) => c, (h: seq<Bytes>) => [], (b: Bytes) => Some(b)))
  {
    var enc := Encoder((h: seq<Bytes>, c: Bytes) => c, (h: seq<Bytes>) => [], (b: Bytes) => Some(b));
    forall chunks: seq<Bytes> ensures enc.decode(Stream(enc, chunks)) == Some(Flatten(chunks)) {
      EmitsWhatIsFed(enc, chunks);
      assert Stream(enc, chunks) == Flatten(chunks);
    }
  }

  lemma {:induction false} EmitsWhatIsFed(enc: Encoder, chunks: seq<Bytes>)
    requires forall h, c :: enc.feed(h, c) == c
    ensures Emitted(enc, chunks) == Flatten(chunks)
  {
    if chunks != [] { EmitsWhatIsFed(enc, chunks[..|chunks|-1]); }
  }

  // ---------- processes and pipes ----------

  /** How the write end was closed: cleanly, or with the error readers then get. */
  datatype Close = Eof | Broken

  /** A rendezvous: the writer stays blocked while `offer` is not consumed. */
  datatype Pipe = Pipe(offer: Bytes, closed: Option<Close>)

  /** pg_dump and the goroutine that waits for it. */
  datatype Dump = Running(left: Bytes) | Exited | Closed

  datatype Gzip = Copying | Flushing | Done

  /** What a run is given: the bytes pg_dump writes before it exits, whether it exits cleanly, and whether the
      stream is compressed. */
  datatype Job = Job(dump: Bytes, exitOk: bool, compress: bool, enc: Encoder)

  datatype State = State(
    dump: Dump, cmdErr: bool, raw: Pipe,
    gzip: Gzip, chunks: seq<Bytes>, packed: Pipe,
    stored: Bytes, destFailed: bool, result: Option<Result<nat>>)

  function Start(job: Job): State {
    State(Running(job.dump), false, Pipe([], None), Copying, [], Pipe([], None), [], false, None)
  }

  /** The pipe the destination reads. */
  function Source(job: Job, s: State): Pipe {
    if job.compress then s.packed else s.raw
  }

  datatype Step =
    | DumpWrite(n: nat)
    | DumpExit
    | DumpClose
    | GzipRead(n: nat)
    | GzipEnd
    | GzipClose
    | GzipBreak
    | DestRead(n: nat)
    | DestEnd
    | DestBreak
    | DestFail

  predicate Enabled(job: Job, s: State, step: Step) {
    match step
    case DumpWrite(n) => s.dump.Running? && 0 < n <= |s.dump.left| && s.raw.offer == []
    case DumpExit => s.dump.Running? && s.dump.left == [] && s.raw.offer == []
    case DumpClose => s.dump.Exited?
    case GzipRead(n) => job.compress && s.gzip.Copying? && s.packed.offer == [] && 0 < n <= |s.raw.offer|
    case GzipEnd => job.compress && s.gzip.Copying? && s.packed.offer == [] && s.raw == Pipe([], Some(Eof))
    case GzipClose => job.compress && s.gzip.Flushing? && s.packed.offer == []
    case GzipBreak => job.compress && s.gzip.Copying? && s.packed.offer == [] && s.raw == Pipe([], Some(Broken))
    case DestRead(n) => s.result.None? && 0 < n <= |Source(job, s).offer|
    case DestEnd => s.result.None? && Source(job, s) == Pipe([], Some(Eof))
    case DestBreak => s.result.None? && Source(job, s) == Pipe([], Some(Broken))
    case DestFail => s.result.None?
  }

  function Next(job: Job, s: State, step: Step): State
    requires Enabled(job, s, step)
  {
    match step
    case DumpWrite(n) => s.(dump := Running(s.dump.left[n..]), raw := s.raw.(offer := s.dump.left[..n]))
    case DumpExit => s.(dump := Exited, cmdErr := !job.exitOk)
    case DumpClose => s.(dump := Closed, raw := s.raw.(closed := Some(if s.cmdErr then Broken else Eof)))
    case GzipRead(n) =>
      var chunk := s.raw.offer[..n];
      s.(raw := s.raw.(offer := s.raw.offer[n..]), chunks := s.chunks + [chunk],
         packed := s.packed.(offer := job.enc.feed(s.chunks, chunk)))
    case GzipEnd => s.(gzip := Flushing, packed := s.packed.(offer := job.enc.finish(s.chunks)))
    case GzipClose => s.(gzip := Done, packed := s.packed.(closed := Some(Eof)))
    case GzipBreak => s.(gzip := Done, packed := s.packed.(closed := Some(Broken)))
    case DestRead(n) =>
      var taken := s.(stored := s.stored + Source(job, s).offer[..n]);
      if job.compress then taken.(packed := s.packed.(offer := s.packed.offer[n..]))
      else taken.(raw := s.raw.(offer := s.raw.offer[n..]))
    case DestEnd => s.(result := Some(if s.cmdErr then Err else Ok(|s.stored|)))
    case DestBreak => s.(result := Some(Err))
    case DestFail => s.(destFailed := true, result := Some(Err))
  }

  // ---------- what every interleaving keeps ----------

  /** Bytes taken out of the first pipe so far. */
  function Taken(job: Job, s: State): Bytes {
    if job.compress then Flatten(s.chunks) else s.stored
  }

  function Unsent(s: State): Bytes {
    if s.dump.Running? then s.dump.left else []
  }

  /** Nothing is lost, made up or reordered in either pipe. */
  ghost predicate Conserved(job: Job, s: State) {
    && job.dump == Taken(job, s) + s.raw.offer + Unsent(s)
    && (job.compress ==>
          s.stored + s.packed.offer == if s.gzip.Copying? || s.packed.closed == Some(Broken) then Emitted(job.enc, s.chunks)
                                       else Stream(job.enc, s.chunks))
  }

  /** The stages end in order, and the error travels with the end of the stream. */
  ghost predicate Ordered(job: Job, s: State) {
    && (s.dump.Running? ==> !s.cmdErr)
    && (!s.dump.Running? ==> s.raw.offer == [] && s.cmdErr == !job.exitOk)
    && (s.raw.closed == if s.dump.Closed? then Some(if job.exitOk then Eof else Broken) else None)
    && (job.compress && !s.gzip.Copying? ==> s.raw.closed.Some? && s.raw.offer == [])
    && (job.compress && s.gzip.Flushing? ==> job.exitOk)
    && (job.compress ==> s.packed.closed == if s.gzip.Done? then s.raw.closed else None)
    && (job.compress && s.gzip.Done? ==> s.packed.offer == [])
    && (s.result.Some? && !s.destFailed ==> Source(job, s).closed.Some? && Source(job, s).offer == [])
    && (s.destFailed ==> s.result == Some(Err))
    && (s.result.Some? && s.result.value.Ok? ==>
          s.result == Some(Ok(|s.stored|)) && Source(job, s) == Pipe([], Some(Eof)) && job.exitOk)
    && (s.result == Some(Err) ==> s.destFailed || !job.exitOk)
  }

  ghost predicate Inv(job: Job, s: State) {
    Conserved(job, s) && Ordered(job, s)
  }

  lemma StartInv(job: Job)
    ensures Inv(job, Start(job))
  {
  }

  lemma DumpWriteConserves(job: Job, s: State, n: nat)
    requires Inv(job, s) && Enabled(job, s, DumpWrite(n))
    ensures Conserved(job, Next(job, s, DumpWrite(n)))
  {
    var left := s.dump.left;
    Cut(left, n);
    assert Taken(job, s) + [] + left == Taken(job, s) + left[..n] + left[n..];
  }

  lemma Cut(b: Bytes, n: nat)
    requires n <= |b|
    ensures b == b[..n] + b[n..]
  {
  }

  lemma OneMoreChunk(enc: Encoder, chunks: seq<Bytes>, chunk: Bytes)
    ensures Flatten(chunks + [chunk]) == Flatten(chunks) + chunk
    ensures Emitted(enc, chunks + [chunk]) == Emitted(enc, chunks) + enc.feed(chunks, chunk)
  {
    var more := chunks + [chunk];
    assert more[..|more|-1] == chunks && more[|more|-1] == chunk;
  }

  lemma GzipReadConserves(job: Job, s: State, n: nat)
    requires Inv(job, s) && Enabled(job, s, GzipRead(n))
    ensures Conserved(job, Next(job, s, GzipRead(n)))
  {
    var chunk, rest := s.raw.offer[..n], s.raw.offer[n..];
    Cut(s.raw.offer, n);
    OneMoreChunk(job.enc, s.chunks, chunk);
    assert Flatten(s.chunks) + (chunk + rest) + Unsent(s) == Flatten(s.chunks) + chunk + rest + Unsent(s);
    assert s.stored + [] == s.stored;
  }

  lemma GzipEndConserves(job: Job, s: State)
    requires Inv(job, s) && Enabled(job, s, GzipEnd)
    ensures Conserved(job, Next(job, s, GzipEnd))
  {
    assert s.stored + [] == s.stored;
  }

  lemma DestReadConserves(job: Job, s: State, n: nat)
    requires Inv(job, s) && Enabled(job, s, DestRead(n))
    ensures Conserved(job, Next(job, s, DestRead(n)))
  {
    var offer := Source(job, s).offer;
    Cut(offer, n);
    assert s.stored + (offer[..n] + offer[n..]) == s.stored + offer[..n] + offer[n..];
  }

  lemma NextConserves(job: Job, s: State, step: Step)
    requires Inv(job, s) && Enabled(job, s, step)
    ensures Conserved(job, Next(job, s, step))
  {
    match step
    case DumpWrite(n) => DumpWriteConserves(job, s, n);
    case GzipRead(n) => GzipReadConserves(job, s, n);
    case GzipEnd => GzipEndConserves(job, s);
    case DestRead(n) => DestReadConserves(job, s, n);
    case DumpExit =>
    case DumpClose =>
    case GzipClose =>
    case GzipBreak =>
    case DestEnd =>
    case DestBreak =>
    case DestFail =>
  }

  lemma NextOrdered(job: Job, s: State, step: Step)
    requires Inv(job, s) && Enabled(job, s, step)
    ensures Ordered(job, Next(job, s, step))
  {
  }

  // ---------- all runs ----------

  /** The state after some steps, each enabled when it is taken; None otherwise. */
  ghost function After(job: Job, steps: seq<Step>): (r: Option<State>)
    ensures r.Some? ==> Inv(job, r.value)
  {
    if steps == [] then
      StartInv(job);
      Some(Start(job))
    else
      var before := After(job, steps[..|steps|-1]);
      var step := steps[|steps|-1];
      if before.None? || !Enabled(job, before.value, step) then None
      else
        NextConserves(job, before.value, step);
        NextOrdered(job, before.value, step);
        Some(Next(job, before.value, step))
  }

  /** The destination holds the whole dump, or the whole compressed stream of it. */
  ghost predicate HoldsWholeDump(job: Job, s: State) {
    && (!job.compress ==> s.stored == job.dump)
    && (job.compress ==> s.stored == Stream(job.enc, s.chunks) && job.enc.decode(s.stored) == Some(job.dump))
  }

  lemma SuccessState(job: Job, s: State)
    requires Lawful(job.enc) && Inv(job, s) && s.result.Some? && s.result.value.Ok?
    ensures job.exitOk && s.result.value.value == |s.stored| && HoldsWholeDump(job, s)
  {
    assert s.dump.Closed?;
    assert s.raw.offer == [] && Unsent(s) == [];
    assert Taken(job, s) + [] + [] == Taken(job, s);
    if job.compress {
      assert s.packed == Pipe([], Some(Eof)) && s.gzip.Done?;
      assert s.stored + [] == s.stored;
      assert job.enc.decode(Stream(job.enc, s.chunks)) == Some(Flatten(s.chunks));
    }
  }

  /** The same with the other direction, for a state the invariant holds in. */
  lemma OutcomeState(job: Job, s: State)
    requires Lawful(job.enc) && Inv(job, s) && s.result.Some?
    ensures s.result.value.Ok? ==> job.exitOk && s.result.value.value == |s.stored| && HoldsWholeDump(job, s)
    ensures !s.destFailed ==> (s.result.value.Ok? <==> job.exitOk)
  {
    if s.result.value.Ok? { SuccessState(job, s); }
  }

  /** In every interleaving, success means pg_dump exited cleanly and the destination holds the whole dump and
      was told its length. While the destination does not fail by itself, an error means pg_dump failed. */
  lemma SuccessIsWholeDump(job: Job, steps: seq<Step>, s: State)
    requires Lawful(job.enc) && After(job, steps) == Some(s) && s.result.Some?
    ensures s.result.value.Ok? ==> job.exitOk && s.result.value.value == |s.stored| && HoldsWholeDump(job, s)
    ensures !s.destFailed ==> (s.result.value.Ok? <==> job.exitOk)
  {
    OutcomeState(job, s);
  }

  lemma PrefixOfSum(a: Bytes, b: Bytes, whole: Bytes)
    requires whole == a + b
    ensures a <= whole
  {
  }

  lemma StoredPrefixState(job: Job, s: State)
    requires Conserved(job, s)
    ensures Taken(job, s) <= job.dump
    ensures job.compress ==> s.stored <= Stream(job.enc, s.chunks)
  {
    assert Taken(job, s) + s.raw.offer + Unsent(s) == Taken(job, s) + (s.raw.offer + Unsent(s));
    PrefixOfSum(Taken(job, s), s.raw.offer + Unsent(s), job.dump);
    if job.compress {
      PrefixOfSum(Emitted(job.enc, s.chunks), job.enc.finish(s.chunks), Stream(job.enc, s.chunks));
      PrefixOfSum(s.stored, s.packed.offer, s.stored + s.packed.offer);
    }
  }

  /** What any unfinished or failed run has stored is the beginning of what a whole one stores. */
  lemma StoredIsPrefix(job: Job, steps: seq<Step>, s: State)
    requires After(job, steps) == Some(s)
    ensures job.compress ==> s.stored <= Stream(job.enc, s.chunks) && Flatten(s.chunks) <= job.dump
    ensures !job.compress ==> s.stored <= job.dump
  {
    assert Inv(job, s);
    StoredPrefixState(job, s);
  }

  // ---------- progress while the destination reads ----------

  function DumpPhase(d: Dump): nat {
    match d
    case Running(_) => 2
    case Exited => 1
    case Closed => 0
  }

  function GzipPhase(g: Gzip): nat {
    match g
    case Copying => 2
    case Flushing => 1
    case Done => 0
  }

  /** Bytes still to cross the first pipe, then the phases, then the bytes in the second pipe. */
  function Rank(job: Job, s: State): (nat, nat, nat, nat) {
    (2 * |Unsent(s)| + |s.raw.offer| + DumpPhase(s.dump), GzipPhase(s.gzip), |s.packed.offer|, if s.result.None? then 1 else 0)
  }

  predicate Below(a: (nat, nat, nat, nat), b: (nat, nat, nat, nat)) {
    a.0 < b.0 || (a.0 == b.0 && (a.1 < b.1 || (a.1 == b.1 && (a.2 < b.2 || (a.2 == b.2 && a.3 < b.3)))))
  }

  /** Whatever step is taken, the run comes closer to its end. */
  lemma EveryStepCounts(job: Job, s: State, step: Step)
    requires Inv(job, s) && Enabled(job, s, step)
    ensures Below(Rank(job, Next(job, s, step)), Rank(job, s))
  {
  }

  /** A portion of something that is not empty, as a reader or writer happens to transfer it. */
  method Portion(size: nat) returns (n: nat)
    requires size > 0
    ensures 0 < n <= size
  {
    n :| 0 < n <= size;
  }

  /** One step of whichever process is scheduled. The cases cover every unfinished state even when the
      destination never fails: no run is stuck. */
  method Schedule(job: Job, s: State, destMayFail: bool) returns (step: Step)
    requires Inv(job, s) && s.result.None?
    ensures Enabled(job, s, step) && (step.DestFail? ==> destMayFail)
  {
    if {
      case s.dump.Running? && s.dump.left != [] && s.raw.offer == [] =>
        var n := Portion(|s.dump.left|);
        step := DumpWrite(n);
      case Enabled(job, s, DumpExit) => step := DumpExit;
      case Enabled(job, s, DumpClose) => step := DumpClose;
      case job.compress && s.gzip.Copying? && s.packed.offer == [] && s.raw.offer != [] =>
        var n := Portion(|s.raw.offer|);
        step := GzipRead(n);
      case Enabled(job, s, GzipEnd) => step := GzipEnd;
      case Enabled(job, s, GzipClose) => step := GzipClose;
      case Enabled(job, s, GzipBreak) => step := GzipBreak;
      case Source(job, s).offer != [] =>
        var n := Portion(|Source(job, s).offer|);
        step := DestRead(n);
      case Enabled(job, s, DestEnd) => step := DestEnd;
      case Enabled(job, s, DestBreak) => step := DestBreak;
      case destMayFail => step := DestFail;
    }
  }

  /** A run grows by one step: it stays a run, and comes closer to its end. */
  lemma OneMoreStep(job: Job, steps: seq<Step>, s: State, step: Step)
    requires After(job, steps) == Some(s) && Enabled(job, s, step)
    ensures After(job, steps + [step]) == Some(Next(job, s, step))
    ensures Inv(job, Next(job, s, step)) && Below(Rank(job, Next(job, s, step)), Rank(job, s))
  {
    assert (steps + [step])[..|steps|] == steps;
    NextConserves(job, s, step);
    NextOrdered(job, s, step);
    EveryStepCounts(job, s, step);
  }

  /** Only a failing step makes the destination fail. */
  lemma FailsBySteps(job: Job, s: State, step: Step)
    requires Enabled(job, s, step)
    ensures Next(job, s, step).destFailed <==> s.destFailed || step.DestFail?
  {
  }

  /** `Run` from the start of pg_dump on, under any scheduler: it ends, after the steps listed, and while the
      destination keeps reading it succeeds exactly when pg_dump does. */
  method Run(job: Job, destMayFail: bool) returns (r: Result<nat>, s: State, ghost steps: seq<Step>)
    requires Lawful(job.enc)
    ensures After(job, steps) == Some(s) && s.result == Some(r)
    ensures r.Ok? ==> job.exitOk && r.value == |s.stored| && HoldsWholeDump(job, s)
    ensures !destMayFail ==> (r.Ok? <==> job.exitOk)
  {
    s, steps := Start(job), [];
    StartInv(job);
    while s.result.None?
      invariant After(job, steps) == Some(s)
      invariant Inv(job, s) && (s.destFailed ==> destMayFail)
      decreases Rank(job, s).0, Rank(job, s).1, Rank(job, s).2, Rank(job, s).3
    {
      var step := Schedule(job, s, destMayFail);
      OneMoreStep(job, steps, s, step);
      FailsBySteps(job, s, step);
      s, steps := Next(job, s, step), steps + [step];
    }
    r := s.result.value;
    SuccessIsWholeDump(job, steps, s);
  }
}
