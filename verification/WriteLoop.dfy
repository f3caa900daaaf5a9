/**
 The write loop: read a chunk, feed it to the stream hash, pad a device's last sector, and try to
 write it whole, again and again up to a bound. The source may change between reads and every
 attempt may fail or stop short.
 */
module WriteLoop {
  import opened Bytes
  import opened Arithmetic
  import opened Status
  import opened Io

  /** What the loop is given: all sizes are fixed before it starts. */
  datatype Job = Job(size: FileSize, bufferSize: U64, device: bool, alignment: U32, retries: U32) {
    predicate Valid() {
      0 < size && 0 < bufferSize && 0 < alignment && 0 < retries
    }

    /** The last byte a write may reach: a device is written in whole sectors. */
    function Extent(): nat
      requires Valid()
    {
      if device then RoundUp(size, alignment) else size
    }
  }

  datatype LoopState = LoopState(snapshot: Snapshot, offset: nat, streamed: seq<Byte>, retries: nat)

  /** One attempt at writing `data`. */
  function AttemptOnce(env: Environment, job: Job, data: seq<Byte>, offset: nat, s: Snapshot): Snapshot {
    s.(clock := s.clock + 1, mutations := s.mutations + 1,
       bytes := WriteEffect(s.bytes, job.device, data, offset, env.transfer(s.clock)))
  }

  predicate AttemptSucceeds(env: Environment, job: Job, data: seq<Byte>, offset: nat, s: Snapshot) {
    && env.transfer(s.clock).Moved?
    && Accepted(s.bytes, job.device, |data|, offset, env.transfer(s.clock)) == |data|
  }

  /** Up to `left` attempts; the number of failed ones is returned. */
  function Attempts(env: Environment, job: Job, data: seq<Byte>, offset: nat, left: nat, s: Snapshot)
    : (bool, Snapshot, nat)
  {
    if left == 0 then (false, s, 0)
    else
      var next := AttemptOnce(env, job, data, offset, s);
      if AttemptSucceeds(env, job, data, offset, s) then (true, next, 0)
      else
        var (ok, last, failures) := Attempts(env, job, data, offset, left - 1, next);
        (ok, last, failures + 1)
  }

  /** How much is written for `wanted` source bytes; None is an alignment the buffer cannot hold. */
  function WriteLength(job: Job, wanted: U64): Option<U64>
    requires job.Valid()
  {
    if job.device && wanted % job.alignment != 0 then
      var padded := RoundUp(wanted, job.alignment);
      if padded == 0 || padded > job.bufferSize then None else Some(padded)
    else Some(wanted)
  }

  /** One iteration. */
  function Step(env: Environment, job: Job, st: LoopState): (Status, LoopState)
    requires job.Valid() && st.offset < job.size
  {
    var s := st.snapshot;
    var wanted := Min(job.size - st.offset, job.bufferSize);
    var next := s.(clock := s.clock + 1);
    match ReadResult(env.source(s.clock), env.transfer(s.clock), wanted, st.offset)
    case Failure(e) => (e, st.(snapshot := next))
    case Success(data) =>
      if |data| != wanted then (IoFailed, st.(snapshot := next))
      else
        var streamed := st.streamed + data;
        match WriteLength(job, wanted)
        case None => (Internal, st.(snapshot := next, streamed := streamed))
        case Some(length) =>
          var padded := data + Zeros(Max(0, length - wanted));
          var (ok, last, failures) := Attempts(env, job, padded, st.offset, job.retries, next);
          var retries := st.retries + failures;
          if !ok then (IoFailed, LoopState(last, st.offset, streamed, retries))
          else
            var offset := st.offset + wanted;
            (Ok, LoopState(last.(events := last.events + [Event(Write, offset, job.size)]), offset, streamed, retries))
  }

  lemma StepAdvances(env: Environment, job: Job, st: LoopState)
    requires job.Valid() && st.offset < job.size && Step(env, job, st).0 == Ok
    ensures st.offset < Step(env, job, st).1.offset <= job.size
  {
    hide Attempts, RoundUp;
  }

  /** The whole loop. */
  function Loop(env: Environment, job: Job, st: LoopState): (Status, LoopState)
    requires job.Valid() && st.offset <= job.size
    decreases job.size - st.offset
  {
    if st.offset == job.size then (Ok, st)
    else
      var (status, next) := Step(env, job, st);
      if status != Ok then (status, next)
      else
        StepAdvances(env, job, st);
        Loop(env, job, next)
  }
}
