/**
 * The hash-guarded swap of a file (atomicReplace in internal/filetools/file.go) as a step protocol:
 * our steps interleave with outside writers that write in place under the file's lock.
 */
module Replace {
  import opened Basics

  /** What one call is asked to do; an empty expected hash skips the check. */
  datatype Request = Request(data: seq<byte>, expected: string, hash: seq<byte> -> string)

  datatype Failure = FileIo | StaleHash

  datatype Holder = Nobody | Us | Writer

  datatype Pc =
    | Begin
    | TmpCreated
    | TmpWritten
    | TmpSynced
    | TmpClosed
    | Opened
    | Holding
    | Reading
    | Checked
    | CleanUp(r: Result<(), Failure>)
    | Finished(r: Result<(), Failure>)

  /**
   * `original` is the file object our handle refers to; `target` is what the path leads to. They are the same
   * file until the swap. `outside` is what the outside writers last left at the path before the swap, and
   * `replaced` is the content the swap took away.
   */
  datatype State = State(
    pc: Pc,
    target: seq<byte>,
    original: seq<byte>,
    outside: seq<byte>,
    lock: Holder,
    tmp: Option<seq<byte>>,
    read: seq<byte>,
    replaced: Option<seq<byte>>,
    newFileWritten: bool)

  datatype Step =
    | CreateTmp(ok: bool)
    | WriteTmp(written: nat, ok: bool)
    | SyncTmp(ok: bool)
    | CloseTmp(ok: bool)
    | OpenTarget(ok: bool)
    | TakeLock
    | LockGivenUp
    | Seek(ok: bool)
    | ReadSome(n: nat)
    | ReadFails
    | CompareHash
    | Swap(ok: bool)
    | Release
    | WriterLocks
    | WriterWrites(bytes: seq<byte>)
    | WriterUnlocks
    | NewFileWrites(bytes: seq<byte>)

  function Start(content: seq<byte>): State {
    State(Begin, content, content, content, Nobody, None, [], None, false)
  }

  function Fail(s: State, f: Failure): State {
    s.(pc := CleanUp(Err(f)))
  }

  function Advance(s: State, ok: bool, next: Pc): State {
    if ok then s.(pc := next) else Fail(s, FileIo)
  }

  /** The state after one step, or None when the step cannot happen. */
  function Next(q: Request, s: State, step: Step): Option<State> {
    match step
    case CreateTmp(ok) =>
      if s.pc != Begin then None
      else if ok then Some(s.(pc := TmpCreated, tmp := Some([])))
      else Some(s.(pc := Finished(Err(FileIo))))
    case WriteTmp(written, ok) =>
      if s.pc != TmpCreated || written > |q.data| || (ok && written != |q.data|) then None
      else Some(Advance(s.(tmp := Some(q.data[..written])), ok, TmpWritten))
    case SyncTmp(ok) => if s.pc != TmpWritten then None else Some(Advance(s, ok, TmpSynced))
    case CloseTmp(ok) => if s.pc != TmpSynced then None else Some(Advance(s, ok, TmpClosed))
    case OpenTarget(ok) => if s.pc != TmpClosed then None else Some(Advance(s, ok, Opened))
    case TakeLock => if s.pc != Opened || s.lock != Nobody then None else Some(s.(pc := Holding, lock := Us))
    case LockGivenUp => if s.pc != Opened then None else Some(Fail(s, FileIo))
    case Seek(ok) =>
      if s.pc != Holding || q.expected == "" then None else Some(Advance(s.(read := []), ok, Reading))
    case ReadSome(n) =>
      if s.pc != Reading || |s.read| + n > |s.original| then None
      else Some(s.(read := s.read + s.original[|s.read|..|s.read| + n]))
    case ReadFails => if s.pc != Reading then None else Some(Fail(s, FileIo))
    case CompareHash =>
      if s.pc != Reading || |s.read| != |s.original| then None
      else if q.hash(s.read) != q.expected then Some(Fail(s, StaleHash))
      else Some(s.(pc := Checked))
    case Swap(ok) =>
      if s.pc != Checked && !(s.pc == Holding && q.expected == "") then None
      else if !ok then Some(Fail(s, FileIo))
      else if s.tmp.None? then None
      else Some(s.(pc := CleanUp(Ok(())), target := s.tmp.value, tmp := None, replaced := Some(s.target)))
    case Release =>
      if !s.pc.CleanUp? then None
      else Some(s.(pc := Finished(s.pc.r), lock := if s.lock == Us then Nobody else s.lock, tmp := None))
    case WriterLocks => if s.lock != Nobody then None else Some(s.(lock := Writer))
    case WriterWrites(bytes) =>
      if s.lock != Writer then None
      else if s.replaced.Some? then Some(s.(original := bytes))
      else Some(s.(original := bytes, target := bytes, outside := bytes))
    case WriterUnlocks => if s.lock != Writer then None else Some(s.(lock := Nobody))
    case NewFileWrites(bytes) =>
      if s.replaced.None? then None else Some(s.(target := bytes, newFileWritten := true))
  }

  /** Every state a run of steps can reach. */
  ghost predicate Reaches(q: Request, content: seq<byte>, steps: seq<Step>, s: State)
    decreases |steps|
  {
    if steps == [] then s == Start(content)
    else exists before :: Reaches(q, content, Init(steps), before) && Next(q, before, Last(steps)) == Some(s)
  }

  predicate HoldsLock(pc: Pc) {
    pc == Holding || pc == Reading || pc == Checked
  }

  predicate TmpComplete(pc: Pc) {
    pc == TmpWritten || pc == TmpSynced || pc == TmpClosed || pc == Opened || HoldsLock(pc)
  }

  predicate Succeeded(pc: Pc) {
    (pc.CleanUp? || pc.Finished?) && pc.r.Ok?
  }

  predicate Inv(q: Request, s: State) {
    && (s.replaced.None? ==> s.target == s.original == s.outside && !s.newFileWritten)
    && (s.replaced.Some? ==>
          && (s.target == q.data || s.newFileWritten)
          && (q.expected != "" ==> q.hash(s.replaced.value) == q.expected)
          && s.replaced.value == s.outside
          && Succeeded(s.pc))
    && (s.replaced.None? ==> !Succeeded(s.pc))
    && (HoldsLock(s.pc) ==> s.lock == Us)
    && (s.lock == Us ==> HoldsLock(s.pc) || s.pc.CleanUp?)
    && (s.pc == Reading ==> s.read <= s.original)
    && (s.pc == Checked ==> q.expected != "" ==> q.hash(s.original) == q.expected)
    && (TmpComplete(s.pc) ==> s.tmp == Some(q.data))
    && (s.pc == Begin || s.pc.Finished? || s.replaced.Some? ==> s.tmp.None?)
  }

  predicate Outside(step: Step) {
    step.WriterLocks? || step.WriterWrites? || step.WriterUnlocks? || step.NewFileWrites?
  }

  lemma {:induction false} OutsideStepKeepsInv(q: Request, s: State, step: Step)
    requires Inv(q, s) && Next(q, s, step).Some? && Outside(step)
    ensures Inv(q, Next(q, s, step).value)
  {}

  /** The steps that prepare the temporary file. */
  predicate Staging(step: Step) {
    step.CreateTmp? || step.WriteTmp? || step.SyncTmp? || step.CloseTmp? || step.OpenTarget?
  }

  lemma {:induction false} StagingStepKeepsInv(q: Request, s: State, step: Step)
    requires Inv(q, s) && Next(q, s, step).Some? && Staging(step)
    ensures Inv(q, Next(q, s, step).value)
  {
    assert q.data[..|q.data|] == q.data;
  }

  lemma {:induction false} ReadStepKeepsInv(q: Request, s: State, step: Step)
    requires Inv(q, s) && Next(q, s, step).Some? && (step.ReadSome? || step.ReadFails? || step.CompareHash?)
    ensures Inv(q, Next(q, s, step).value)
  {
    assert s.read == s.original[..|s.read|];
    assert s.original[..|s.original|] == s.original;
    if step.ReadSome? {
      assert s.read + s.original[|s.read|..|s.read| + step.n] == s.original[..|s.read| + step.n];
    }
  }

  lemma {:induction false} LockStepKeepsInv(q: Request, s: State, step: Step)
    requires Inv(q, s) && Next(q, s, step).Some?
    requires step.TakeLock? || step.LockGivenUp? || step.Seek? || step.Swap? || step.Release?
    ensures Inv(q, Next(q, s, step).value)
  {}

  lemma {:induction false} StepKeepsInv(q: Request, s: State, step: Step)
    requires Inv(q, s) && Next(q, s, step).Some?
    ensures Inv(q, Next(q, s, step).value)
  {
    hide *;
    if Outside(step) {
      OutsideStepKeepsInv(q, s, step);
    } else if Staging(step) {
      StagingStepKeepsInv(q, s, step);
    } else if step.ReadSome? || step.ReadFails? || step.CompareHash? {
      ReadStepKeepsInv(q, s, step);
    } else {
      StepKinds(step);
      LockStepKeepsInv(q, s, step);
    }
  }

  lemma {:induction false} StepKinds(step: Step)
    ensures || Outside(step) || Staging(step) || step.ReadSome? || step.ReadFails? || step.CompareHash?
            || step.TakeLock? || step.LockGivenUp? || step.Seek? || step.Swap? || step.Release?
  {}

  lemma {:induction false} RunKeepsInv(q: Request, content: seq<byte>, steps: seq<Step>, s: State)
    requires Reaches(q, content, steps, s)
    ensures Inv(q, s)
    decreases |steps|
  {
    if steps != [] {
      var before :| Reaches(q, content, Init(steps), before) && Next(q, before, Last(steps)) == Some(s);
      RunKeepsInv(q, content, Init(steps), before);
      StepKeepsInv(q, before, Last(steps));
    }
  }

  /**
   * At every moment the path leads to exactly what the outside writers left, or - after the swap and until
   * someone writes the new file - to exactly the new content; never to a part of it.
   */
  lemma {:induction false} NeverPartial(q: Request, content: seq<byte>, steps: seq<Step>, s: State)
    requires Reaches(q, content, steps, s)
    ensures s.replaced.None? ==> s.target == s.outside
    ensures s.replaced.Some? && !s.newFileWritten ==> s.target == q.data
  {
    RunKeepsInv(q, content, steps, s);
  }

  /** Success means the swap took away content with the expected hash, as the outside writers left it. */
  lemma {:induction false} SuccessReplacedExpected(q: Request, content: seq<byte>, steps: seq<Step>, s: State)
    requires Reaches(q, content, steps, s) && s.pc == Finished(Ok(()))
    ensures s.replaced == Some(s.outside)
    ensures q.expected != "" ==> q.hash(s.replaced.value) == q.expected
    ensures s.tmp.None? && s.lock != Us
  {
    RunKeepsInv(q, content, steps, s);
  }

  /** A failed call leaves the file as the outside writers left it, and nothing else behind. */
  lemma {:induction false} FailureLeavesTarget(q: Request, content: seq<byte>, steps: seq<Step>, s: State)
    requires Reaches(q, content, steps, s) && s.pc.Finished? && s.pc.r.Err?
    ensures s.target == s.outside && s.replaced.None?
    ensures s.tmp.None? && s.lock != Us
  {
    RunKeepsInv(q, content, steps, s);
  }

  lemma {:induction false} StaleStep(q: Request, s: State, step: Step)
    requires Inv(q, s) && Next(q, s, step).Some?
    requires s.pc == Reading ==> q.expected != ""
    requires s.pc == CleanUp(Err(StaleHash)) ==> s.lock == Us && q.expected != "" && q.hash(s.original) != q.expected
    ensures var s' := Next(q, s, step).value;
            && (s'.pc == Reading ==> q.expected != "")
            && (s'.pc == CleanUp(Err(StaleHash)) ==>
                  s'.lock == Us && q.expected != "" && q.hash(s'.original) != q.expected)
  {
    if step.CompareHash? {
      assert s.read == s.original[..|s.read|] == s.original;
    }
  }

  /** A stale hash is reported only when the content under our lock has another one than expected. */
  lemma {:induction false} StaleIsReal(q: Request, content: seq<byte>, steps: seq<Step>, s: State)
    requires Reaches(q, content, steps, s)
    ensures s.pc == Reading ==> q.expected != ""
    ensures s.pc == CleanUp(Err(StaleHash)) ==> s.lock == Us && q.expected != "" && q.hash(s.original) != q.expected
    decreases |steps|
  {
    if steps != [] {
      var before :| Reaches(q, content, Init(steps), before) && Next(q, before, Last(steps)) == Some(s);
      StaleIsReal(q, content, Init(steps), before);
      RunKeepsInv(q, content, Init(steps), before);
      hide Inv, Next;
      StaleStep(q, before, Last(steps));
    }
  }

  /** While we hold the lock no outside writer can change the file that was hashed. */
  lemma {:induction false} NoWriteUnderOurLock(q: Request, content: seq<byte>, steps: seq<Step>, s: State,
                                               bytes: seq<byte>)
    requires Reaches(q, content, steps, s) && HoldsLock(s.pc)
    ensures Next(q, s, WriterWrites(bytes)) == Next(q, s, WriterLocks) == None
  {
    RunKeepsInv(q, content, steps, s);
  }

  // ----- A call that nothing disturbs

  /** A step of ours that does not fail. */
  predicate Smooth(step: Step) {
    match step
    case CreateTmp(ok) => ok
    case WriteTmp(_, ok) => ok
    case SyncTmp(ok) => ok
    case CloseTmp(ok) => ok
    case OpenTarget(ok) => ok
    case Seek(ok) => ok
    case Swap(ok) => ok
    case TakeLock => true
    case ReadSome(_) => true
    case CompareHash => true
    case Release => true
    case _ => false
  }

  predicate MayReplace(q: Request, content: seq<byte>) {
    q.expected == "" || q.hash(content) == q.expected
  }

  /** Nothing has gone wrong but, at most, the hash. */
  predicate OnlyHashFails(q: Request, content: seq<byte>, s: State) {
    && s.original == s.outside == content && (s.pc == Reading ==> q.expected != "")
    && ((s.pc.CleanUp? || s.pc.Finished?) && s.pc.r.Err? ==> s.pc.r.error == StaleHash && !MayReplace(q, content))
  }

  lemma {:induction false} SmoothStep(q: Request, content: seq<byte>, s: State, step: Step)
    requires Inv(q, s) && OnlyHashFails(q, content, s) && Smooth(step) && Next(q, s, step).Some?
    ensures OnlyHashFails(q, content, Next(q, s, step).value)
  {
    if step.CompareHash? {
      assert s.read == s.original[..|s.read|] == s.original;
    }
  }

  /** A call that finishes undisturbed replaces the file exactly when it had the expected hash, or none was given. */
  lemma {:induction false} SmoothRunReplacesIff(q: Request, content: seq<byte>, steps: seq<Step>, s: State)
    requires Reaches(q, content, steps, s) && forall step | step in steps :: Smooth(step)
    ensures OnlyHashFails(q, content, s)
    ensures s.pc.Finished? ==> (s.pc.r.Ok? <==> MayReplace(q, content))
    ensures s.pc.Finished? && s.pc.r.Err? ==> s.pc.r.error == StaleHash
    decreases |steps|
  {
    RunKeepsInv(q, content, steps, s);
    if steps != [] {
      var before :| Reaches(q, content, Init(steps), before) && Next(q, before, Last(steps)) == Some(s);
      SmoothRunReplacesIff(q, content, Init(steps), before);
      RunKeepsInv(q, content, Init(steps), before);
      assert Last(steps) in steps;
      SmoothStep(q, content, before, Last(steps));
    }
  }

  lemma {:induction false} OneStepOn(q: Request, content: seq<byte>, steps: seq<Step>, s: State, step: Step)
    returns (t: State)
    requires Reaches(q, content, steps, s) && Next(q, s, step).Some?
    ensures Reaches(q, content, steps + [step], t) && Next(q, s, step) == Some(t)
  {
    t := Next(q, s, step).value;
    assert Init(steps + [step]) == steps && Last(steps + [step]) == step;
  }

  /** The steps of a call that prepares its temporary file and gets the lock at once. */
  function Prepared(q: Request): seq<Step> {
    [] + [CreateTmp(true)] + [WriteTmp(|q.data|, true)] + [SyncTmp(true)] + [CloseTmp(true)] + [OpenTarget(true)]
    + [TakeLock]
  }

  lemma {:induction false} CanPrepare(q: Request, content: seq<byte>) returns (s: State)
    ensures Reaches(q, content, Prepared(q), s) && s.pc == Holding && s.target == s.original == content
    ensures s.tmp == Some(q.data) && s.replaced.None?
  {
    hide Reaches;
    StartReaches(q, content);
    s := OneStepOn(q, content, [], Start(content), CreateTmp(true));
    var done := [] + [CreateTmp(true)];
    s := OneStepOn(q, content, done, s, WriteTmp(|q.data|, true));
    done := done + [WriteTmp(|q.data|, true)];
    s := OneStepOn(q, content, done, s, SyncTmp(true));
    done := done + [SyncTmp(true)];
    s := OneStepOn(q, content, done, s, CloseTmp(true));
    done := done + [CloseTmp(true)];
    s := OneStepOn(q, content, done, s, OpenTarget(true));
    done := done + [OpenTarget(true)];
    s := OneStepOn(q, content, done, s, TakeLock);
    assert q.data[..|q.data|] == q.data;
  }

  lemma {:induction false} StartReaches(q: Request, content: seq<byte>)
    ensures Reaches(q, content, [], Start(content))
  {}

  /** Every call can finish: it then holds the new content, or has found another hash. */
  lemma {:induction false} CallCanFinish(q: Request, content: seq<byte>) returns (steps: seq<Step>, s: State)
    ensures Reaches(q, content, steps, s) && s.pc.Finished?
    ensures s.pc.r == if MayReplace(q, content) then Ok(()) else Err(StaleHash)
    ensures s.target == if MayReplace(q, content) then q.data else content
  {
    hide Reaches;
    s := CanPrepare(q, content);
    steps := Prepared(q);
    if q.expected != "" {
      s := OneStepOn(q, content, steps, s, Seek(true));
      steps := steps + [Seek(true)];
      s := OneStepOn(q, content, steps, s, ReadSome(|content|));
      steps := steps + [ReadSome(|content|)];
      assert s.read == content by { assert [] + content[0..|content|] == content; }
      s := OneStepOn(q, content, steps, s, CompareHash);
      steps := steps + [CompareHash];
    }
    if MayReplace(q, content) {
      s := OneStepOn(q, content, steps, s, Swap(true));
      steps := steps + [Swap(true)];
    }
    s := OneStepOn(q, content, steps, s, Release);
    steps := steps + [Release];
  }

  // ----- The bounded wait for the lock

  datatype LockTry = Taken | Contended | Broken

  const RETRY_WINDOW := 100
  const RETRY_INTERVAL := 10

  /**
   * `lockTargetForReplace`: retry a contended lock until the window has passed. `outcome` answers the k-th
   * attempt and `clock` the k-th look at the time, in milliseconds; each pause takes at least the interval.
   */
  method LockTarget(start: int, outcome: nat -> LockTry, clock: nat -> int) returns (r: LockTry, attempts: nat)
    requires start <= clock(0) && forall k: nat :: clock(k) + RETRY_INTERVAL <= clock(k + 1)
    ensures 1 <= attempts <= RETRY_WINDOW / RETRY_INTERVAL + 1
    ensures r == outcome(attempts - 1)
    ensures forall k: nat | k < attempts - 1 :: outcome(k) == Contended && clock(k) < start + RETRY_WINDOW
    ensures r == Contended ==> clock(attempts - 1) >= start + RETRY_WINDOW
  {
    var deadline := start + RETRY_WINDOW;
    attempts := 0;
    while true
      invariant attempts <= RETRY_WINDOW / RETRY_INTERVAL
      invariant start + attempts * RETRY_INTERVAL <= clock(attempts)
      invariant forall k: nat | k < attempts :: outcome(k) == Contended && clock(k) < deadline
      decreases RETRY_WINDOW / RETRY_INTERVAL + 1 - attempts
    {
      r := outcome(attempts);
      attempts := attempts + 1;
      if r != Contended || clock(attempts - 1) >= deadline {
        return;
      }
      assert clock(attempts - 1) + RETRY_INTERVAL <= clock(attempts);
    }
  }
}
