// The state writer: it drains updates in batches, persists the merged state after each,
// survives failed persists and keeps a status mirror (src/state/writer.rs).

module Writer {
  import opened Prelude
  import opened StateLog
  import opened StateFile
  import AtomicFile

  type Disk = AtomicFile.Disk<Json>
  type Env = AtomicFile.Env

  const BATCH_LIMIT: nat := 64
  const STATE_FILE_MODE: nat := 384 // 0o600

  /** One drain of the channel: the batch received, the fate of its persist, and whether the mirror's lock was poisoned. */
  datatype Round = Round(batch: seq<StateUpdate>, env: Env, poisoned: bool)

  predicate ValidRounds(rounds: seq<Round>) {
    forall i :: 0 <= i < |rounds| ==> 1 <= |rounds[i].batch| <= BATCH_LIMIT
  }

  datatype World = World(memory: State, disk: Disk, dirty: bool, mirror: State)

  // ---------------------------------------------------------------------
  // Specification
  // ---------------------------------------------------------------------

  function Log(rounds: seq<Round>): seq<StateUpdate> {
    Concat(Map((r: Round) => r.batch, rounds))
  }

  function Persist(tt: TimeText, w: World, env: Env, poisoned: bool): World {
    var disk := AtomicFile.Outcome(w.disk, Encode(tt, w.memory), STATE_FILE_MODE, env);
    if env.fault.None? then w.(disk := disk, dirty := false, mirror := if poisoned then w.mirror else w.memory)
    else w.(disk := disk)
  }

  function AfterRound(tt: TimeText, w: World, r: Round): World {
    Persist(tt, w.(memory := Fold(w.memory, r.batch), dirty := true), r.env, r.poisoned)
  }

  function Drain(tt: TimeText, w: World, rounds: seq<Round>): World {
    if rounds == [] then w
    else AfterRound(tt, Drain(tt, w, rounds[..|rounds| - 1]), rounds[|rounds| - 1])
  }

  /** The final persist happens only when something is unsaved; it is one more round with nothing in it. */
  function Finish(tt: TimeText, w: World, rounds: seq<Round>, last: Env, poisoned: bool): World {
    var drained := Drain(tt, w, rounds);
    if drained.dirty then Persist(tt, drained, last, poisoned).(dirty := true) else drained
  }

  /** Every disk a crash can strike while these rounds run, in order. */
  function CrashTrace(tt: TimeText, w: World, rounds: seq<Round>): seq<Disk> {
    if rounds == [] then []
    else
      var init, r := rounds[..|rounds| - 1], rounds[|rounds| - 1];
      var before := Drain(tt, w, init);
      CrashTrace(tt, w, init)
      + AtomicFile.CrashPoints(before.disk, Encode(tt, Fold(before.memory, r.batch)), STATE_FILE_MODE, r.env,
                               AtomicFile.Reached(r.env))
  }

  function FinishTrace(tt: TimeText, w: World, rounds: seq<Round>, last: Env, poisoned: bool): seq<Disk> {
    CrashTrace(tt, w, if Drain(tt, w, rounds).dirty then rounds + [Round([], last, poisoned)] else rounds)
  }

  /** Up to and including the last round that satisfies p; 0 when none does. */
  function LastRound(p: Round -> bool, rounds: seq<Round>): (n: nat)
    ensures n <= |rounds|
    ensures n > 0 ==> p(rounds[n - 1])
    ensures forall j :: n <= j < |rounds| ==> !p(rounds[j])
  {
    if rounds == [] then 0
    else if p(rounds[|rounds| - 1]) then |rounds|
    else LastRound(p, rounds[..|rounds| - 1])
  }

  predicate Acked(r: Round) { r.env.fault.None? }

  predicate Mirrored(r: Round) { r.env.fault.None? && !r.poisoned }

  predicate Renamed(r: Round) { AtomicFile.Renames(r.env) }

  /** The state after the first n rounds, as the fold of their updates. */
  function StateAt(s: State, rounds: seq<Round>, n: nat): State
    requires n <= |rounds|
  {
    Fold(s, Log(rounds[..n]))
  }

  // ---------------------------------------------------------------------
  // Memory is the fold of the log, however it is batched
  // ---------------------------------------------------------------------

  lemma LogAppend(a: seq<Round>, b: seq<Round>)
    ensures Log(a + b) == Log(a) + Log(b)
  {
    MapAppend((r: Round) => r.batch, a, b);
    ConcatAppend(Map((r: Round) => r.batch, a), Map((r: Round) => r.batch, b));
  }

  lemma LogSnoc(rounds: seq<Round>)
    requires rounds != []
    ensures Log(rounds) == Log(rounds[..|rounds| - 1]) + rounds[|rounds| - 1].batch
  {
    var init, r := rounds[..|rounds| - 1], rounds[|rounds| - 1];
    assert rounds == init + [r];
    LogAppend(init, [r]);
    assert Map((q: Round) => q.batch, [r]) == [r.batch];
    assert Concat([r.batch]) == Concat([]) + r.batch == r.batch;
  }

  lemma {:induction false} MemoryIsFold(tt: TimeText, w: World, rounds: seq<Round>)
    ensures Drain(tt, w, rounds).memory == Fold(w.memory, Log(rounds))
  {
    if rounds != [] {
      var init, r := rounds[..|rounds| - 1], rounds[|rounds| - 1];
      MemoryIsFold(tt, w, init);
      LogSnoc(rounds);
      FoldAppend(w.memory, Log(init), r.batch);
    }
  }

  /** Two batchings of the same updates leave the same memory, whatever persists failed in either. */
  lemma BatchingIrrelevant(tt: TimeText, w: World, a: seq<Round>, b: seq<Round>)
    requires Log(a) == Log(b)
    ensures Drain(tt, w, a).memory == Drain(tt, w, b).memory
  {
    MemoryIsFold(tt, w, a);
    MemoryIsFold(tt, w, b);
  }

  // ---------------------------------------------------------------------
  // What disk and mirror hold
  // ---------------------------------------------------------------------

  /**
   * The destination file is the image of the last round whose rename happened, the mirror is the
   * state of the last acknowledged round, `dirty` says whether the last round was acknowledged.
   */
  lemma {:induction false} DiskAndMirror(tt: TimeText, w: World, rounds: seq<Round>)
    requires !w.dirty
    ensures var d := Drain(tt, w, rounds);
            var renamed, mirrored := LastRound(Renamed, rounds), LastRound(Mirrored, rounds);
            && d.disk.dest == (if renamed == 0 then w.disk.dest
                               else AtomicFile.Intact(Encode(tt, StateAt(w.memory, rounds, renamed))))
            && d.mirror == (if mirrored == 0 then w.mirror else StateAt(w.memory, rounds, mirrored))
            && (d.dirty <==> LastRound(Acked, rounds) < |rounds|)
    ensures LastRound(Mirrored, rounds) <= LastRound(Acked, rounds) <= LastRound(Renamed, rounds)
  {
    if rounds != [] {
      var init, r := rounds[..|rounds| - 1], rounds[|rounds| - 1];
      DiskAndMirror(tt, w, init);
      MemoryIsFold(tt, w, rounds);
      assert rounds[..|rounds|] == rounds;
      PrefixStates(w.memory, rounds);
      var before := Drain(tt, w, init);
      var contents := Encode(tt, Fold(before.memory, r.batch));
      AtomicFile.CrashSafe(before.disk, contents, STATE_FILE_MODE, r.env, AtomicFile.Reached(r.env));
    }
  }

  lemma PrefixStates(s: State, rounds: seq<Round>)
    requires rounds != []
    ensures forall n :: 0 <= n < |rounds| ==> StateAt(s, rounds, n) == StateAt(s, rounds[..|rounds| - 1], n)
  {
    forall n | 0 <= n < |rounds|
      ensures StateAt(s, rounds, n) == StateAt(s, rounds[..|rounds| - 1], n)
    {
      assert rounds[..|rounds| - 1][..n] == rounds[..n];
    }
  }

  /** After any number of batches, a clean writer's file holds its memory and nothing else can be found after a crash. */
  lemma CleanMeansSaved(tt: TimeText, w: World, rounds: seq<Round>)
    requires !w.dirty && rounds != []
    ensures var d := Drain(tt, w, rounds);
            !d.dirty ==> d.disk.dest == AtomicFile.Intact(Encode(tt, d.memory)) && d.disk.durable == {d.disk.dest}
                         && d.disk.destMode == 0x180 && d.disk.temp.NoTemp?
  {
    var init, r := rounds[..|rounds| - 1], rounds[|rounds| - 1];
    var before := Drain(tt, w, init);
    if r.env.fault.None? {
      AtomicFile.AcknowledgedIsDurable(before.disk, Encode(tt, Fold(before.memory, r.batch)), STATE_FILE_MODE, r.env);
    }
  }

  // ---------------------------------------------------------------------
  // The end of a run
  // ---------------------------------------------------------------------

  /** The rounds of a run with its final persist, which has no updates and happens only if the last batch was not saved. */
  function WithLast(rounds: seq<Round>, last: Env, poisoned: bool): seq<Round> {
    if rounds == [] || rounds[|rounds| - 1].env.fault.None? then rounds else rounds + [Round([], last, poisoned)]
  }

  /**
   * How a run from w leaves memory, file and mirror: all updates folded, the file as the last round whose
   * rename happened left it, the mirror as the last acknowledged round that reached it left it. The rounds
   * include the final persist.
   */
  ghost predicate EndsAs(tt: TimeText, w: World, rounds: seq<Round>, last: Env, poisoned: bool,
                         memory: State, disk: Disk, mirror: State) {
    var all := WithLast(rounds, last, poisoned);
    var renamed, mirrored := LastRound(Renamed, all), LastRound(Mirrored, all);
    && memory == Fold(w.memory, Log(rounds))
    && disk.dest == (if renamed == 0 then w.disk.dest else AtomicFile.Intact(Encode(tt, StateAt(w.memory, all, renamed))))
    && mirror == (if mirrored == 0 then w.mirror else StateAt(w.memory, all, mirrored))
    && (forall e :: e in disk.durable ==> Recoverable(tt, w, all, LastRound(Acked, all), |all|, e))
  }

  lemma LastAddsNothing(s: State, rounds: seq<Round>, last: Env, poisoned: bool)
    ensures var all := WithLast(rounds, last, poisoned);
            Log(all) == Log(rounds) && StateAt(s, all, |all|) == Fold(s, Log(rounds))
  {
    var all := WithLast(rounds, last, poisoned);
    assert all[..|all|] == all;
    if all != rounds {
      LogSnoc(all);
      assert all[..|all| - 1] == rounds && Log(rounds) + [] == Log(rounds);
    }
  }

  /** The final persist is a round like any other, but that it leaves the writer marked unsaved. */
  lemma FinishIsDrain(tt: TimeText, w: World, rounds: seq<Round>, last: Env, poisoned: bool)
    requires !w.dirty
    ensures var all := WithLast(rounds, last, poisoned);
            Finish(tt, w, rounds, last, poisoned) == Drain(tt, w, all).(dirty := all != rounds)
  {
    DiskAndMirror(tt, w, rounds);
    var all := WithLast(rounds, last, poisoned);
    if all != rounds {
      assert all[..|all| - 1] == rounds;
    }
  }

  lemma FinishEnds(tt: TimeText, w: World, rounds: seq<Round>, last: Env, poisoned: bool)
    requires !w.dirty
    ensures var f := Finish(tt, w, rounds, last, poisoned);
            EndsAs(tt, w, rounds, last, poisoned, f.memory, f.disk, f.mirror)
  {
    var all := WithLast(rounds, last, poisoned);
    FinishIsDrain(tt, w, rounds, last, poisoned);
    LastAddsNothing(w.memory, rounds, last, poisoned);
    MemoryIsFold(tt, w, all);
    DiskAndMirror(tt, w, all);
    forall e | e in Drain(tt, w, all).disk.durable
      ensures Recoverable(tt, w, all, LastRound(Acked, all), |all|, e)
    {
      RecoverableBetweenRounds(tt, w, all, e);
    }
  }

  /** The trace of a whole run is its crash points, those of the final persist included. */
  lemma TraceIsCrashes(tt: TimeText, w: World, rounds: seq<Round>, last: Env, poisoned: bool, d: Disk)
    requires !w.dirty
    ensures d in FinishTrace(tt, w, rounds, last, poisoned)
            <==> exists i, k :: StruckAt(tt, w, WithLast(rounds, last, poisoned), i, k, d)
  {
    DiskAndMirror(tt, w, rounds);
    var all := WithLast(rounds, last, poisoned);
    assert FinishTrace(tt, w, rounds, last, poisoned) == CrashTrace(tt, w, all);
    if d in CrashTrace(tt, w, all) {
      var i, k := TraceCoversCrashes(tt, w, all, d);
    }
    if i, k :| StruckAt(tt, w, all, i, k, d) {
      CrashesAreTraced(tt, w, all, i, k, d);
    }
  }

  /**
   * After any run with at least one batch: if the last batch or, failing that, the final persist was
   * acknowledged, the file alone survives a power loss and is the image of everything drained; the mirror
   * shows the same unless its lock was poisoned in that round.
   */
  lemma ShutdownSaves(tt: TimeText, w: World, rounds: seq<Round>, last: Env, poisoned: bool)
    requires !w.dirty && rounds != []
    requires rounds[|rounds| - 1].env.fault.None? || last.fault.None?
    ensures var f := Finish(tt, w, rounds, last, poisoned);
            var saved := AtomicFile.Intact(Encode(tt, Fold(w.memory, Log(rounds))));
            && f.disk.dest == saved && f.disk.durable == {saved}
            && (!(if rounds[|rounds| - 1].env.fault.None? then rounds[|rounds| - 1].poisoned else poisoned) ==>
                  f.mirror == Fold(w.memory, Log(rounds)))
  {
    var all := WithLast(rounds, last, poisoned);
    FinishIsDrain(tt, w, rounds, last, poisoned);
    LastAddsNothing(w.memory, rounds, last, poisoned);
    MemoryIsFold(tt, w, all);
    DiskAndMirror(tt, w, all);
    CleanMeansSaved(tt, w, all);
  }

  /** With no updates the file, the mirror and the crash trace are untouched. */
  lemma IdleNeverWrites(tt: TimeText, w: World, last: Env, poisoned: bool)
    requires !w.dirty
    ensures Finish(tt, w, [], last, poisoned) == w
    ensures FinishTrace(tt, w, [], last, poisoned) == []
  {
  }

  // ---------------------------------------------------------------------
  // Crash recovery
  // ---------------------------------------------------------------------

  /** The entry is the image of the state after some n of the rounds, with lo <= n <= hi. */
  ghost predicate ImageBetween(tt: TimeText, s: State, rounds: seq<Round>, lo: nat, hi: nat, e: AtomicFile.Entry<Json>) {
    exists n: nat :: lo <= n <= hi && n <= |rounds| && e == AtomicFile.Intact(Encode(tt, StateAt(s, rounds, n)))
  }

  /**
   * What a crash may find, given that `acked` rounds are acknowledged and `started` have begun: the
   * image of a prefix of the log at least as long as the acknowledged one, or, before any
   * acknowledgement, a file from before the run.
   */
  ghost predicate Recoverable(tt: TimeText, w: World, rounds: seq<Round>, acked: nat, started: nat, e: AtomicFile.Entry<Json>) {
    (acked == 0 && e in w.disk.durable)
    || (started > 0 && ImageBetween(tt, w.memory, rounds, Max(acked, 1), started, e))
  }

  lemma {:induction false} RecoverableBetweenRounds(tt: TimeText, w: World, rounds: seq<Round>, e: AtomicFile.Entry<Json>)
    requires e in Drain(tt, w, rounds).disk.durable
    ensures Recoverable(tt, w, rounds, LastRound(Acked, rounds), |rounds|, e)
    decreases |rounds|, 1
  {
    if rounds != [] {
      var r := rounds[|rounds| - 1];
      RecoverableDuring(tt, w, rounds, AtomicFile.Reached(r.env), e);
    }
  }

  /** The disk after k file-system steps of the last round's persist. */
  function DiskDuring(tt: TimeText, w: World, rounds: seq<Round>, k: nat): Disk
    requires rounds != [] && k <= AtomicFile.Reached(rounds[|rounds| - 1].env)
  {
    var before := Drain(tt, w, rounds[..|rounds| - 1]);
    var r := rounds[|rounds| - 1];
    AtomicFile.After(before.disk, Encode(tt, Fold(before.memory, r.batch)), STATE_FILE_MODE, r.env, k)
  }

  /** Rounds acknowledged once k steps of the last persist are done. */
  function AckedDuring(rounds: seq<Round>, k: nat): nat
    requires rounds != []
  {
    if k == |AtomicFile.PROGRAM| then |rounds| else LastRound(Acked, rounds[..|rounds| - 1])
  }

  lemma {:induction false} RecoverableDuring(tt: TimeText, w: World, rounds: seq<Round>, k: nat, e: AtomicFile.Entry<Json>)
    requires rounds != [] && k <= AtomicFile.Reached(rounds[|rounds| - 1].env)
    requires e in DiskDuring(tt, w, rounds, k).durable
    ensures Recoverable(tt, w, rounds, AckedDuring(rounds, k), |rounds|, e)
    decreases |rounds|, 0
  {
    var init, r := rounds[..|rounds| - 1], rounds[|rounds| - 1];
    var before := Drain(tt, w, init);
    var contents := Encode(tt, Fold(before.memory, r.batch));
    AtomicFile.CrashSafe(before.disk, contents, STATE_FILE_MODE, r.env, k);
    if e == AtomicFile.Intact(contents) && k > AtomicFile.IndexOf(AtomicFile.Rename) {
      MemoryIsFold(tt, w, rounds);
      assert rounds[..|rounds|] == rounds;
      assert contents == Encode(tt, StateAt(w.memory, rounds, |rounds|));
    } else {
      RecoverableBetweenRounds(tt, w, init, e);
      if !(LastRound(Acked, init) == 0 && e in w.disk.durable) {
        PrefixStates(w.memory, rounds);
        var n: nat :| Max(LastRound(Acked, init), 1) <= n <= |init| && e == AtomicFile.Intact(Encode(tt, StateAt(w.memory, init, n)));
        assert e == AtomicFile.Intact(Encode(tt, StateAt(w.memory, rounds, n)));
      }
    }
  }

  /** The entry is the complete image of s folded over some log between lo and hi in prefix order. */
  ghost predicate PrefixImage(tt: TimeText, s: State, lo: seq<StateUpdate>, hi: seq<StateUpdate>, e: AtomicFile.Entry<Json>) {
    exists log :: lo <= log <= hi && e == AtomicFile.Intact(Encode(tt, Fold(s, log)))
  }

  lemma ImageIsPrefixImage(tt: TimeText, s: State, rounds: seq<Round>, lo: nat, hi: nat, e: AtomicFile.Entry<Json>)
    requires lo <= hi <= |rounds| && ImageBetween(tt, s, rounds[..hi], lo, hi, e)
    ensures PrefixImage(tt, s, Log(rounds[..lo]), Log(rounds[..hi]), e)
  {
    var n: nat :| lo <= n <= hi && e == AtomicFile.Intact(Encode(tt, StateAt(s, rounds[..hi], n)));
    assert rounds[..hi][..n] == rounds[..n];
    LogMonotone(rounds, lo, n);
    LogMonotone(rounds, n, hi);
    var log := Log(rounds[..n]);
    assert e == AtomicFile.Intact(Encode(tt, Fold(s, log)));
  }

  /** The updates acknowledged when step k of round i's persist is done. */
  function AckedLog(rounds: seq<Round>, i: nat, k: nat): seq<StateUpdate>
    requires i < |rounds|
  {
    Log(rounds[..AckedDuring(rounds[..i + 1], k)])
  }

  /**
   * Crash recovery. At step k of round i, over every batching and every pattern of failures, a power
   * loss leaves either a file from before the run (only if nothing was acknowledged yet) or the
   * complete image of the fold of a prefix of the log, and that prefix covers every acknowledged
   * update. The rounds may include the final persist, whose batch is empty.
   */
  lemma CrashRecovery(tt: TimeText, w: World, rounds: seq<Round>, i: nat, k: nat, e: AtomicFile.Entry<Json>)
    requires i < |rounds| && k <= AtomicFile.Reached(rounds[i].env)
    requires e in DiskDuring(tt, w, rounds[..i + 1], k).durable
    ensures (AckedDuring(rounds[..i + 1], k) == 0 && e in w.disk.durable)
            || PrefixImage(tt, w.memory, AckedLog(rounds, i, k), Log(rounds[..i + 1]), e)
  {
    var upTo := rounds[..i + 1];
    var acked := AckedDuring(upTo, k);
    RecoverableDuring(tt, w, upTo, k, e);
    if acked == 0 && e in w.disk.durable {
      assert rounds[..0] == [];
    } else {
      ImageIsPrefixImage(tt, w.memory, rounds, Max(acked, 1), i + 1, e);
      LogMonotone(rounds, acked, Max(acked, 1));
    }
  }

  lemma LogMonotone(rounds: seq<Round>, m: nat, n: nat)
    requires m <= n <= |rounds|
    ensures Log(rounds[..m]) <= Log(rounds[..n])
  {
    assert rounds[..n] == rounds[..m] + rounds[m..n];
    LogAppend(rounds[..m], rounds[m..n]);
  }

  /** d is the disk after step k of round i's persist. */
  ghost predicate StruckAt(tt: TimeText, w: World, rounds: seq<Round>, i: nat, k: nat, d: Disk) {
    i < |rounds| && 0 < k <= AtomicFile.Reached(rounds[i].env) && d == DiskDuring(tt, w, rounds[..i + 1], k)
  }

  lemma LastRoundStrikes(tt: TimeText, w: World, init: seq<Round>, r: Round, d: Disk) returns (k: nat)
    requires d in AtomicFile.CrashPoints(Drain(tt, w, init).disk, Encode(tt, Fold(Drain(tt, w, init).memory, r.batch)),
                                         STATE_FILE_MODE, r.env, AtomicFile.Reached(r.env))
    ensures StruckAt(tt, w, init + [r], |init|, k, d)
  {
    var before := Drain(tt, w, init);
    k := PointOf(before.disk, Encode(tt, Fold(before.memory, r.batch)), r.env, AtomicFile.Reached(r.env), d);
    assert (init + [r])[..|init| + 1] == init + [r] && (init + [r])[..|init|] == init;
  }

  /** What struck an earlier round strikes the longer run at the same point. */
  lemma StruckEarlier(tt: TimeText, w: World, init: seq<Round>, r: Round, i: nat, k: nat, d: Disk)
    requires i < |init|
    ensures StruckAt(tt, w, init + [r], i, k, d) <==> StruckAt(tt, w, init, i, k, d)
  {
    assert (init + [r])[..i + 1] == init[..i + 1];
  }

  /** Every disk in the trace of a run is one of the crash points the recovery theorem speaks of. */
  lemma {:induction false} TraceCoversCrashes(tt: TimeText, w: World, rounds: seq<Round>, d: Disk)
    returns (i: nat, k: nat)
    requires d in CrashTrace(tt, w, rounds)
    ensures StruckAt(tt, w, rounds, i, k, d)
  {
    var init, r := rounds[..|rounds| - 1], rounds[|rounds| - 1];
    assert init + [r] == rounds;
    if d in CrashTrace(tt, w, init) {
      i, k := TraceCoversCrashes(tt, w, init, d);
      StruckEarlier(tt, w, init, r, i, k, d);
    } else {
      i := |init|;
      k := LastRoundStrikes(tt, w, init, r, d);
    }
  }

  lemma {:induction false} PointOf(d0: Disk, contents: Json, env: Env, n: nat, d: Disk) returns (k: nat)
    requires n <= |AtomicFile.PROGRAM|
    requires d in AtomicFile.CrashPoints(d0, contents, STATE_FILE_MODE, env, n)
    ensures 0 < k <= n && d == AtomicFile.After(d0, contents, STATE_FILE_MODE, env, k)
  {
    if d == AtomicFile.After(d0, contents, STATE_FILE_MODE, env, n) {
      k := n;
    } else {
      k := PointOf(d0, contents, env, n - 1, d);
    }
  }

  lemma {:induction false} PointIsTraced(d0: Disk, contents: Json, env: Env, n: nat, k: nat)
    requires 0 < k <= n <= |AtomicFile.PROGRAM|
    ensures AtomicFile.After(d0, contents, STATE_FILE_MODE, env, k)
            in AtomicFile.CrashPoints(d0, contents, STATE_FILE_MODE, env, n)
  {
    if k < n {
      PointIsTraced(d0, contents, env, n - 1, k);
    }
  }

  /** And every one of them is in the trace. */
  lemma {:induction false} CrashesAreTraced(tt: TimeText, w: World, rounds: seq<Round>, i: nat, k: nat, d: Disk)
    requires StruckAt(tt, w, rounds, i, k, d)
    ensures d in CrashTrace(tt, w, rounds)
  {
    var init, r := rounds[..|rounds| - 1], rounds[|rounds| - 1];
    if i < |init| {
      assert init + [r] == rounds;
      StruckEarlier(tt, w, init, r, i, k, d);
      CrashesAreTraced(tt, w, init, i, k, d);
    } else {
      var before := Drain(tt, w, init);
      assert rounds[..i + 1] == rounds;
      PointIsTraced(before.disk, Encode(tt, Fold(before.memory, r.batch)), r.env, AtomicFile.Reached(r.env), k);
    }
  }

  // ---------------------------------------------------------------------
  // Restarting
  // ---------------------------------------------------------------------

  function ReadEntry(e: AtomicFile.Entry<Json>): FileRead {
    match e
    case Absent => NotFound
    case Intact(doc) => Document(doc)
    case Torn => NotJson
  }

  /** Whatever a power loss leaves loads back as the writer's memory. */
  ghost predicate Consistent(tt: TimeText, w: World) {
    && w.memory.schema == SCHEMA_VERSION
    && forall e :: e in w.disk.durable ==> LoadOrInit(tt, ReadEntry(e)) == Loaded(w.memory)
  }

  /** After a crash at any point the loader succeeds and returns the fold of a prefix covering every acknowledged update. */
  lemma RestartAfterCrash(tt: TimeText, w: World, rounds: seq<Round>, i: nat, k: nat, e: AtomicFile.Entry<Json>)
    requires tt.Faithful() && Consistent(tt, w)
    requires i < |rounds| && k <= AtomicFile.Reached(rounds[i].env)
    requires e in DiskDuring(tt, w, rounds[..i + 1], k).durable
    ensures exists log ::
              && AckedLog(rounds, i, k) <= log <= Log(rounds[..i + 1])
              && LoadOrInit(tt, ReadEntry(e)) == Loaded(Fold(w.memory, log))
  {
    CrashRecovery(tt, w, rounds, i, k, e);
    if AckedDuring(rounds[..i + 1], k) == 0 && e in w.disk.durable {
      assert rounds[..0] == [];
      assert LoadOrInit(tt, ReadEntry(e)) == Loaded(Fold(w.memory, []));
    } else {
      var log :| && AckedLog(rounds, i, k) <= log <= Log(rounds[..i + 1])
                 && e == AtomicFile.Intact(Encode(tt, Fold(w.memory, log)));
      FoldKeepsSchema(w.memory, log);
      StateRoundTrip(tt, Fold(w.memory, log));
    }
  }

  lemma {:induction false} DestStaysDurable(tt: TimeText, w: World, rounds: seq<Round>)
    requires w.disk.dest in w.disk.durable
    ensures Drain(tt, w, rounds).disk.dest in Drain(tt, w, rounds).disk.durable
  {
    if rounds != [] {
      var init, r := rounds[..|rounds| - 1], rounds[|rounds| - 1];
      DestStaysDurable(tt, w, init);
      var before := Drain(tt, w, init);
      AtomicFile.CrashSafe(before.disk, Encode(tt, Fold(before.memory, r.batch)), STATE_FILE_MODE, r.env,
                           AtomicFile.Reached(r.env));
    }
  }

  /** What processes see at any step is one of the things a power loss could leave, so a killed writer is covered too. */
  lemma KilledIsCovered(tt: TimeText, w: World, rounds: seq<Round>, i: nat, k: nat)
    requires w.disk.dest in w.disk.durable
    requires i < |rounds| && k <= AtomicFile.Reached(rounds[i].env)
    ensures var d := DiskDuring(tt, w, rounds[..i + 1], k); d.dest in d.durable
  {
    var upTo := rounds[..i + 1];
    DestStaysDurable(tt, w, upTo[..i]);
    var before := Drain(tt, w, upTo[..i]);
    AtomicFile.CrashSafe(before.disk, Encode(tt, Fold(before.memory, rounds[i].batch)), STATE_FILE_MODE, rounds[i].env, k);
  }

  /** The process alone may die, or the power may fail and leave one of the durable entries in some mode. */
  datatype Stop = Killed | PowerLoss(found: AtomicFile.Entry<Json>, mode: nat)

  /** One life of the daemon: the rounds it ran until it stopped at step k of round i. */
  datatype Life = Life(rounds: seq<Round>, i: nat, k: nat, stop: Stop)

  ghost predicate Stops(tt: TimeText, w: World, life: Life) {
    && life.i < |life.rounds| && life.k <= AtomicFile.Reached(life.rounds[life.i].env)
    && (life.stop.PowerLoss? ==> life.stop.found in DiskDuring(tt, w, life.rounds[..life.i + 1], life.k).durable)
  }

  /** The disk the next life starts on. An abandoned temp file is never looked at again. */
  function Left(tt: TimeText, w: World, life: Life): Disk
    requires life.i < |life.rounds| && life.k <= AtomicFile.Reached(life.rounds[life.i].env)
  {
    match life.stop
    case Killed => DiskDuring(tt, w, life.rounds[..life.i + 1], life.k).(temp := AtomicFile.NoTemp)
    case PowerLoss(e, mode) => AtomicFile.Disk(AtomicFile.NoTemp, e, mode, {e})
  }

  /** The next life loads what it finds and mirrors it. */
  function Reboot(tt: TimeText, d: Disk): World {
    var loaded := LoadOrInit(tt, ReadEntry(d.dest));
    var s := if loaded.Loaded? then loaded.state else DEFAULT_STATE;
    World(s, d, false, s)
  }

  /** A chain of lives, each starting from what the one before left. */
  ghost predicate Survives(tt: TimeText, w: World, lives: seq<Life>)
    decreases |lives|, 0
  {
    lives == []
    || (Survives(tt, w, lives[..|lives| - 1])
        && Stops(tt, EndOf(tt, w, lives[..|lives| - 1]), lives[|lives| - 1]))
  }

  ghost function EndOf(tt: TimeText, w: World, lives: seq<Life>): World
    requires Survives(tt, w, lives)
    decreases |lives|, 1
  {
    if lives == [] then w
    else Reboot(tt, Left(tt, EndOf(tt, w, lives[..|lives| - 1]), lives[|lives| - 1]))
  }

  /** A prefix of what the life received that covers everything acknowledged before it stopped. */
  ghost predicate Keeps(life: Life, log: seq<StateUpdate>) {
    && life.i < |life.rounds|
    && AckedLog(life.rounds, life.i, life.k) <= log <= Log(life.rounds[..life.i + 1])
  }

  ghost predicate Covers(lives: seq<Life>, kept: seq<seq<StateUpdate>>) {
    |kept| == |lives| && forall n :: 0 <= n < |lives| ==> Keeps(lives[n], kept[n])
  }

  /** The entry loads as s folded over what each life kept, all of them together. */
  ghost predicate Explains(tt: TimeText, s: State, lives: seq<Life>, kept: seq<seq<StateUpdate>>, e: AtomicFile.Entry<Json>) {
    Covers(lives, kept) && LoadOrInit(tt, ReadEntry(e)) == Loaded(Fold(s, Concat(kept)))
  }

  ghost predicate Explained(tt: TimeText, s: State, lives: seq<Life>, e: AtomicFile.Entry<Json>) {
    exists kept :: Explains(tt, s, lives, kept, e)
  }

  lemma FoldConcatSnoc(s: State, kept: seq<seq<StateUpdate>>, log: seq<StateUpdate>)
    ensures Fold(s, Concat(kept + [log])) == Fold(Fold(s, Concat(kept)), log)
  {
    assert (kept + [log])[..|kept|] == kept;
    FoldAppend(s, Concat(kept), log);
  }

  lemma KeepsMore(lives: seq<Life>, kept: seq<seq<StateUpdate>>, life: Life, log: seq<StateUpdate>)
    requires Covers(lives, kept) && Keeps(life, log)
    ensures Covers(lives + [life], kept + [log])
  {
  }

  /** An entry older than the life, found again because nothing was acknowledged in it. */
  lemma OldEntryExplained(tt: TimeText, s: State, lives: seq<Life>, life: Life, e: AtomicFile.Entry<Json>)
    requires Explained(tt, s, lives, e) && life.i < |life.rounds|
    requires AckedDuring(life.rounds[..life.i + 1], life.k) == 0
    ensures Explained(tt, s, lives + [life], e)
  {
    var kept :| Explains(tt, s, lives, kept, e);
    assert life.rounds[..0] == [];
    KeepsMore(lives, kept, life, []);
    FoldConcatSnoc(s, kept, []);
    assert Explains(tt, s, lives + [life], kept + [[]], e);
  }

  /** An image written in the life, on top of what it started from. */
  lemma NewImageExplained(tt: TimeText, s: State, w: World, lives: seq<Life>, life: Life, log: seq<StateUpdate>)
    requires tt.Faithful() && s.schema == SCHEMA_VERSION && Keeps(life, log)
    requires Explained(tt, s, lives, w.disk.dest) && LoadOrInit(tt, ReadEntry(w.disk.dest)) == Loaded(w.memory)
    ensures Explained(tt, s, lives + [life], AtomicFile.Intact(Encode(tt, Fold(w.memory, log))))
  {
    var kept :| Explains(tt, s, lives, kept, w.disk.dest);
    FoldKeepsSchema(s, Concat(kept));
    FoldKeepsSchema(w.memory, log);
    StateRoundTrip(tt, Fold(w.memory, log));
    KeepsMore(lives, kept, life, log);
    FoldConcatSnoc(s, kept, log);
    assert Explains(tt, s, lives + [life], kept + [log], AtomicFile.Intact(Encode(tt, Fold(w.memory, log))));
  }

  /** Whatever entry one more life may leave is explained, if what it started from was. */
  lemma OneLife(tt: TimeText, s: State, w: World, lives: seq<Life>, life: Life, e: AtomicFile.Entry<Json>)
    requires tt.Faithful() && s.schema == SCHEMA_VERSION
    requires e in w.disk.durable ==> Explained(tt, s, lives, e)
    requires Explained(tt, s, lives, w.disk.dest) && LoadOrInit(tt, ReadEntry(w.disk.dest)) == Loaded(w.memory)
    requires life.i < |life.rounds| && life.k <= AtomicFile.Reached(life.rounds[life.i].env)
    requires e in DiskDuring(tt, w, life.rounds[..life.i + 1], life.k).durable
    ensures Explained(tt, s, lives + [life], e)
  {
    CrashRecovery(tt, w, life.rounds, life.i, life.k, e);
    if AckedDuring(life.rounds[..life.i + 1], life.k) == 0 && e in w.disk.durable {
      OldEntryExplained(tt, s, lives, life, e);
    } else {
      var log :| && AckedLog(life.rounds, life.i, life.k) <= log <= Log(life.rounds[..life.i + 1])
                 && e == AtomicFile.Intact(Encode(tt, Fold(w.memory, log)));
      NewImageExplained(tt, s, w, lives, life, log);
    }
  }

  /** The memory is what the file loads as, and everything durable, the file included, is explained. */
  ghost predicate Held(tt: TimeText, s: State, lives: seq<Life>, w: World) {
    && w.disk.dest in w.disk.durable
    && LoadOrInit(tt, ReadEntry(w.disk.dest)) == Loaded(w.memory)
    && forall e :: e in w.disk.durable ==> Explained(tt, s, lives, e)
  }

  lemma NextHeld(tt: TimeText, s: State, w: World, lives: seq<Life>, life: Life)
    requires tt.Faithful() && s.schema == SCHEMA_VERSION && Held(tt, s, lives, w) && Stops(tt, w, life)
    ensures Held(tt, s, lives + [life], Reboot(tt, Left(tt, w, life)))
  {
    var left := Left(tt, w, life);
    KilledIsCovered(tt, w, life.rounds, life.i, life.k);
    forall e | e in left.durable
      ensures Explained(tt, s, lives + [life], e)
    {
      OneLife(tt, s, w, lives, life, e);
    }
    assert left.dest in left.durable;
  }

  /**
   * Over any number of stops and restarts, by power loss or by the process alone being killed: every
   * life starts with a file that loads, its memory is the first state folded over what each earlier life
   * kept, no life lost an update it had acknowledged, and the same holds of everything a power loss
   * could still bring back.
   */
  lemma {:induction false} ManyLives(tt: TimeText, w: World, lives: seq<Life>)
    requires tt.Faithful() && Consistent(tt, w) && w.disk.dest in w.disk.durable && Survives(tt, w, lives)
    ensures Held(tt, w.memory, lives, EndOf(tt, w, lives))
  {
    if lives == [] {
      forall e | e in w.disk.durable
        ensures Explained(tt, w.memory, [], e)
      {
        assert Explains(tt, w.memory, [], [], e);
      }
    } else {
      var init, life := lives[..|lives| - 1], lives[|lives| - 1];
      ManyLives(tt, w, init);
      NextHeld(tt, w.memory, EndOf(tt, w, init), init, life);
      assert lives == init + [life];
    }
  }

  // ---------------------------------------------------------------------
  // How far the mirror may lag
  // ---------------------------------------------------------------------

  /** The entry that shows the first j rounds. */
  function ImageOf(tt: TimeText, w: World, rounds: seq<Round>, j: nat): AtomicFile.Entry<Json>
    requires j <= |rounds|
  {
    if j == 0 then w.disk.dest else AtomicFile.Intact(Encode(tt, StateAt(w.memory, rounds, j)))
  }

  /** An instant of a run: n rounds are over and k steps of the next round's persist are done. */
  predicate Instant(rounds: seq<Round>, n: nat, k: nat) {
    n <= |rounds| && (k > 0 ==> n < |rounds| && k <= AtomicFile.Reached(rounds[n].env))
  }

  /** The file at an instant. */
  function FileAt(tt: TimeText, w: World, rounds: seq<Round>, n: nat, k: nat): AtomicFile.Entry<Json>
    requires Instant(rounds, n, k)
  {
    if k == 0 then Drain(tt, w, rounds[..n]).disk.dest else DiskDuring(tt, w, rounds[..n + 1], k).dest
  }

  /** The mirror at an instant: a round moves it only once its persist is over. */
  function MirrorAt(tt: TimeText, w: World, rounds: seq<Round>, n: nat): State
    requires n <= |rounds|
  {
    Drain(tt, w, rounds[..n]).mirror
  }

  /** At an instant the file shows the first j rounds and the mirror the first i. */
  ghost predicate Shows(tt: TimeText, w: World, rounds: seq<Round>, n: nat, k: nat, i: nat, j: nat)
    requires Instant(rounds, n, k)
  {
    && i <= j <= |rounds|
    && FileAt(tt, w, rounds, n, k) == ImageOf(tt, w, rounds, j)
    && MirrorAt(tt, w, rounds, n) == StateAt(w.memory, rounds, i)
  }

  /** At an instant the mirror is at most one batch behind the file. */
  ghost predicate OneBehind(tt: TimeText, w: World, rounds: seq<Round>, n: nat, k: nat)
    requires Instant(rounds, n, k)
  {
    exists i: nat, j: nat :: j - i <= 1 && Shows(tt, w, rounds, n, k, i, j)
  }

  /** The round replaced the file and left the mirror: a fault after the rename, or a poisoned mirror. */
  predicate Strands(r: Round) {
    if r.env.fault.None? then r.poisoned else r.env.fault.value in {AtomicFile.ChmodDest, AtomicFile.OpenDir, AtomicFile.SyncDir}
  }

  /** No round strands the mirror unless it is the first or the round just before it was mirrored. */
  predicate StrandsAlone(rounds: seq<Round>) {
    forall j :: 0 < j < |rounds| && Strands(rounds[j]) ==> Mirrored(rounds[j - 1])
  }

  /** No round replaces the file unless it is the first or the round just before it was mirrored. */
  predicate RenamesAlone(rounds: seq<Round>) {
    forall j :: 0 < j < |rounds| && Renamed(rounds[j]) ==> Mirrored(rounds[j - 1])
  }

  /** How many rounds the file covers at an instant. */
  function Covered(rounds: seq<Round>, n: nat, k: nat): (j: nat)
    requires Instant(rounds, n, k)
    ensures j <= |rounds|
  {
    if k > AtomicFile.IndexOf(AtomicFile.Rename) then n + 1 else LastRound(Renamed, rounds[..n])
  }

  lemma StateOfPrefix(s: State, rounds: seq<Round>, n: nat, i: nat)
    requires i <= n <= |rounds|
    ensures StateAt(s, rounds[..n], i) == StateAt(s, rounds, i)
    ensures StateAt(s, rounds, 0) == s
  {
    assert rounds[..n][..i] == rounds[..i];
    assert rounds[..0] == [];
  }

  lemma LastRoundsShow(tt: TimeText, w: World, rounds: seq<Round>, n: nat)
    requires w.mirror == w.memory && !w.dirty && n <= |rounds|
    ensures Shows(tt, w, rounds, n, 0, LastRound(Mirrored, rounds[..n]), LastRound(Renamed, rounds[..n]))
  {
    DiskAndMirror(tt, w, rounds[..n]);
    StateOfPrefix(w.memory, rounds, n, LastRound(Mirrored, rounds[..n]));
    StateOfPrefix(w.memory, rounds, n, LastRound(Renamed, rounds[..n]));
  }

  /** During a persist the file changes at the rename and nowhere else. */
  lemma FileDuring(tt: TimeText, w: World, rounds: seq<Round>, n: nat, k: nat)
    requires Instant(rounds, n, k)
    ensures FileAt(tt, w, rounds, n, k)
            == if k > AtomicFile.IndexOf(AtomicFile.Rename) then ImageOf(tt, w, rounds, n + 1)
               else Drain(tt, w, rounds[..n]).disk.dest
  {
    if k > 0 {
      var upTo, r := rounds[..n + 1], rounds[n];
      assert upTo[..n] == rounds[..n];
      MemoryIsFold(tt, w, upTo);
      var before := Drain(tt, w, rounds[..n]);
      AtomicFile.CrashSafe(before.disk, Encode(tt, Fold(before.memory, r.batch)), STATE_FILE_MODE, r.env, k);
    }
  }

  lemma LastShow(tt: TimeText, w: World, rounds: seq<Round>, n: nat, k: nat)
    requires w.mirror == w.memory && !w.dirty && Instant(rounds, n, k)
    ensures Shows(tt, w, rounds, n, k, LastRound(Mirrored, rounds[..n]), Covered(rounds, n, k))
  {
    LastRoundsShow(tt, w, rounds, n);
    FileDuring(tt, w, rounds, n, k);
  }

  /** Unless the file has just been renamed, the mirror is behind only by a round that stranded it. */
  lemma ApartBetween(rounds: seq<Round>, n: nat)
    requires n <= |rounds| && StrandsAlone(rounds)
    ensures LastRound(Renamed, rounds[..n]) - LastRound(Mirrored, rounds[..n]) <= 1
  {
    var i, j := LastRound(Mirrored, rounds[..n]), LastRound(Renamed, rounds[..n]);
    if j > i {
      assert Strands(rounds[j - 1]);
      if j > 1 {
        assert Mirrored(rounds[j - 2]);
      }
    }
  }

  lemma ApartAlways(rounds: seq<Round>, n: nat, k: nat)
    requires Instant(rounds, n, k) && RenamesAlone(rounds)
    ensures Covered(rounds, n, k) - LastRound(Mirrored, rounds[..n]) <= 1
  {
    ApartBetween(rounds, n);
    if k > AtomicFile.IndexOf(AtomicFile.Rename) && n > 0 {
      assert Renamed(rounds[n]);
      assert Mirrored(rounds[n - 1]);
    }
  }

  /** However long the run and whatever it carries: if strandings stay apart, the mirror is never two behind after a round. */
  lemma StrandsAloneKeepsUp(tt: TimeText, w: World, rounds: seq<Round>, n: nat)
    requires w.mirror == w.memory && !w.dirty && n <= |rounds| && StrandsAlone(rounds)
    ensures OneBehind(tt, w, rounds, n, 0)
  {
    LastShow(tt, w, rounds, n, 0);
    ApartBetween(rounds, n);
  }

  /** And if every rename follows a mirrored round, it is never two behind at any instant. */
  lemma RenamesAloneKeepsUp(tt: TimeText, w: World, rounds: seq<Round>, n: nat, k: nat)
    requires w.mirror == w.memory && !w.dirty && Instant(rounds, n, k) && RenamesAlone(rounds)
    ensures OneBehind(tt, w, rounds, n, k)
  {
    LastShow(tt, w, rounds, n, k);
    ApartAlways(rounds, n, k);
  }

  /** No two prefixes of the run lead to the same state, so the file tells how much it covers. */
  ghost predicate StatesDiffer(s: State, rounds: seq<Round>) {
    forall i, j :: 0 <= i < j <= |rounds| ==> StateAt(s, rounds, i) != StateAt(s, rounds, j)
  }

  ghost predicate FreshStart(tt: TimeText, w: World) {
    && tt.Faithful() && w.memory.schema == SCHEMA_VERSION && w.mirror == w.memory && !w.dirty
    && LoadOrInit(tt, ReadEntry(w.disk.dest)) == Loaded(w.memory)
  }

  lemma ImageLoads(tt: TimeText, w: World, rounds: seq<Round>, j: nat)
    requires FreshStart(tt, w) && j <= |rounds|
    ensures LoadOrInit(tt, ReadEntry(ImageOf(tt, w, rounds, j))) == Loaded(StateAt(w.memory, rounds, j))
  {
    assert rounds[..0] == [];
    FoldKeepsSchema(w.memory, Log(rounds[..j]));
    StateRoundTrip(tt, StateAt(w.memory, rounds, j));
  }

  /** With states that differ, what file and mirror show is unambiguous. */
  lemma ShowsOnce(tt: TimeText, w: World, rounds: seq<Round>, n: nat, k: nat, i: nat, j: nat, i': nat, j': nat)
    requires FreshStart(tt, w) && StatesDiffer(w.memory, rounds) && Instant(rounds, n, k)
    requires Shows(tt, w, rounds, n, k, i, j) && Shows(tt, w, rounds, n, k, i', j')
    ensures i == i' && j == j'
  {
    ImageLoads(tt, w, rounds, j);
    ImageLoads(tt, w, rounds, j');
  }

  /** So the lag at an instant is the distance of two counts. */
  lemma OneBehindIffClose(tt: TimeText, w: World, rounds: seq<Round>, n: nat, k: nat)
    requires FreshStart(tt, w) && StatesDiffer(w.memory, rounds) && Instant(rounds, n, k)
    ensures OneBehind(tt, w, rounds, n, k) <==> Covered(rounds, n, k) - LastRound(Mirrored, rounds[..n]) <= 1
  {
    LastShow(tt, w, rounds, n, k);
    var i, j := LastRound(Mirrored, rounds[..n]), Covered(rounds, n, k);
    forall i': nat, j': nat | Shows(tt, w, rounds, n, k, i', j')
      ensures j' - i' == j - i
    {
      ShowsOnce(tt, w, rounds, n, k, i, j, i', j');
    }
  }

  lemma StrandsTwice(rounds: seq<Round>, j: nat)
    requires 0 < j < |rounds| && Strands(rounds[j]) && !Mirrored(rounds[j - 1])
    ensures Covered(rounds, j + 1, 0) - LastRound(Mirrored, rounds[..j + 1]) > 1
  {
    var upTo := rounds[..j + 1];
    assert upTo[j] == rounds[j] && upTo[j - 1] == rounds[j - 1];
    assert Renamed(upTo[j]) && !Mirrored(upTo[j]);
  }

  lemma RenamesTooSoon(rounds: seq<Round>, j: nat)
    requires 0 < j < |rounds| && Renamed(rounds[j]) && !Mirrored(rounds[j - 1])
    ensures Instant(rounds, j, AtomicFile.Reached(rounds[j].env))
    ensures Covered(rounds, j, AtomicFile.Reached(rounds[j].env)) - LastRound(Mirrored, rounds[..j]) > 1
  {
    assert rounds[..j][j - 1] == rounds[j - 1];
  }

  /**
   * The mirror is documented to be at most one batch behind the disk. On any run whose states differ,
   * that holds after every round exactly when no round that replaces the file without reaching the
   * mirror follows a round that did not reach it either.
   */
  lemma MirrorLagBound(tt: TimeText, w: World, rounds: seq<Round>)
    requires FreshStart(tt, w) && StatesDiffer(w.memory, rounds)
    ensures (forall n :: 0 <= n <= |rounds| ==> OneBehind(tt, w, rounds, n, 0)) <==> StrandsAlone(rounds)
  {
    if StrandsAlone(rounds) {
      forall n | 0 <= n <= |rounds|
        ensures OneBehind(tt, w, rounds, n, 0)
      {
        StrandsAloneKeepsUp(tt, w, rounds, n);
      }
    } else {
      var j :| 0 < j < |rounds| && Strands(rounds[j]) && !Mirrored(rounds[j - 1]);
      StrandsTwice(rounds, j);
      OneBehindIffClose(tt, w, rounds, j + 1, 0);
    }
  }

  /**
   * A reader may look at any instant, also between the rename of a round and its mirror update. There the
   * documented bound holds throughout exactly when every round that replaces the file, but the first,
   * follows a round that reached the mirror.
   */
  lemma MirrorLagAlways(tt: TimeText, w: World, rounds: seq<Round>)
    requires FreshStart(tt, w) && StatesDiffer(w.memory, rounds)
    ensures (forall n: nat, k: nat :: Instant(rounds, n, k) ==> OneBehind(tt, w, rounds, n, k)) <==> RenamesAlone(rounds)
  {
    if RenamesAlone(rounds) {
      forall n: nat, k: nat | Instant(rounds, n, k)
        ensures OneBehind(tt, w, rounds, n, k)
      {
        RenamesAloneKeepsUp(tt, w, rounds, n, k);
      }
    } else {
      var j :| 0 < j < |rounds| && Renamed(rounds[j]) && !Mirrored(rounds[j - 1]);
      RenamesTooSoon(rounds, j);
      OneBehindIffClose(tt, w, rounds, j, AtomicFile.Reached(rounds[j].env));
    }
  }

  /** Poll time of one flow, advanced by one in every round. */
  function Ticks(base: Time, fates: seq<(Env, bool)>): (rounds: seq<Round>)
    ensures |rounds| == |fates|
    ensures forall k :: 0 <= k < |rounds| ==>
              rounds[k] == Round([PollTimestamp("flow", base + k)], fates[k].0, fates[k].1)
  {
    seq(|fates|, k requires 0 <= k < |fates| => Round([PollTimestamp("flow", base + k)], fates[k].0, fates[k].1))
  }

  function PollTime(s: State): Option<Time> {
    if "flow" in s.flows then s.flows["flow"].lastPollAt else None
  }

  lemma TickTimes(s: State, base: Time, fates: seq<(Env, bool)>, n: nat)
    requires n <= |fates|
    ensures PollTime(StateAt(s, Ticks(base, fates), n)) == if n == 0 then PollTime(s) else Some(base + n - 1)
  {
    var rounds := Ticks(base, fates);
    if n == 0 {
      assert rounds[..0] == [];
    } else {
      assert rounds[..n][..n - 1] == rounds[..n - 1];
      LogSnoc(rounds[..n]);
      var last := rounds[n - 1].batch[0];
      assert rounds[..n][n - 1].batch == [last];
      FoldAppend(s, Log(rounds[..n - 1]), [last]);
      assert [last][..0] == [];
    }
  }

  /** Every pattern of faults and poisonings occurs on some run whose states differ. */
  lemma DifferingRun(s: State, fates: seq<(Env, bool)>) returns (rounds: seq<Round>)
    ensures |rounds| == |fates| && ValidRounds(rounds) && StatesDiffer(s, rounds)
    ensures forall k :: 0 <= k < |fates| ==> rounds[k].env == fates[k].0 && rounds[k].poisoned == fates[k].1
  {
    var base := if PollTime(s).Some? then PollTime(s).value + 1 else 0;
    rounds := Ticks(base, fates);
    forall i, j | 0 <= i < j <= |rounds|
      ensures StateAt(s, rounds, i) != StateAt(s, rounds, j)
    {
      TickTimes(s, base, fates, i);
      TickTimes(s, base, fates, j);
    }
  }

  /** For every n there is a run that leaves the mirror n batches behind the file, and no fewer. */
  lemma MirrorLagUnbounded(tt: TimeText, w: World, n: nat) returns (rounds: seq<Round>)
    requires FreshStart(tt, w)
    ensures |rounds| == n && ValidRounds(rounds)
    ensures Shows(tt, w, rounds, n, 0, 0, n)
    ensures forall i: nat, j: nat :: Shows(tt, w, rounds, n, 0, i, j) ==> j - i == n
  {
    var fates := seq(n, _ => (AtomicFile.Env(Some(AtomicFile.SyncDir), STATE_FILE_MODE), false));
    rounds := DifferingRun(w.memory, fates);
    assert rounds[..n] == rounds;
    LastRoundsShow(tt, w, rounds, n);
    assert n > 0 ==> Renamed(rounds[n - 1]);
    forall i: nat, j: nat | Shows(tt, w, rounds, n, 0, i, j)
      ensures j - i == n
    {
      ShowsOnce(tt, w, rounds, n, 0, 0, n, i, j);
    }
  }

  // ---------------------------------------------------------------------
  // The drain loop
  // ---------------------------------------------------------------------

  class StateWriter {
    const tt: TimeText
    const store: StateStore
    const fs: AtomicFile.FileSystem<Json>
    var dirty: bool
    var mirror: State

    function Snapshot(): World
      reads this, store, fs
    {
      World(store.Snapshot(), fs.disk, dirty, mirror)
    }

    /** The mirror starts as the initial state. */
    constructor (tt: TimeText, store: StateStore, fs: AtomicFile.FileSystem<Json>)
      ensures this.tt == tt && this.store == store && this.fs == fs
      ensures Snapshot() == World(store.Snapshot(), fs.disk, false, store.Snapshot())
    {
      this.tt, this.store, this.fs := tt, store, fs;
      dirty, mirror := false, store.Snapshot();
    }

    method ApplyBatch(batch: seq<StateUpdate>)
      modifies store
      ensures store.Snapshot() == Fold(old(store.Snapshot()), batch)
    {
      assert batch[..|batch|] == batch;
      for i := 0 to |batch|
        invariant store.Snapshot() == Fold(old(store.Snapshot()), batch[..i])
      {
        assert batch[..i + 1][..i] == batch[..i];
        store.ApplyUpdate(batch[i]);
      }
    }

    /** The final persist of the drain loop and the one after each batch share this step. */
    method PersistNow(env: Env, poisoned: bool) returns (ok: bool)
      modifies this, fs
      ensures ok <==> env.fault.None?
      ensures Snapshot() == Persist(tt, old(Snapshot()), env, poisoned)
      ensures fs.history == old(fs.history)
                            + AtomicFile.CrashPoints(old(fs.disk), Encode(tt, old(store.Snapshot())), STATE_FILE_MODE, env,
                                                     AtomicFile.Reached(env))
    {
      var state := store.Snapshot();
      ok := fs.AtomicWrite(Encode(tt, state), STATE_FILE_MODE, env);
      if ok {
        dirty := false;
        if !poisoned {
          mirror := state;
        }
      }
    }

    /** One pass of the loop: apply the batch, mark the memory unsaved, persist. */
    method ServeRound(r: Round)
      modifies this, store, fs
      ensures Snapshot() == AfterRound(tt, old(Snapshot()), r)
      ensures fs.history == old(fs.history)
                            + AtomicFile.CrashPoints(old(fs.disk), Encode(tt, Fold(old(store.Snapshot()), r.batch)),
                                                     STATE_FILE_MODE, r.env, AtomicFile.Reached(r.env))
    {
      ApplyBatch(r.batch);
      dirty := true;
      var ok := PersistNow(r.env, r.poisoned);
    }

    /** Drain until the channel closes, then persist once more if something is unsaved. */
    method RunMirrored(rounds: seq<Round>, last: Env, poisoned: bool)
      requires ValidRounds(rounds) && !dirty
      modifies this, store, fs
      ensures Snapshot() == Finish(tt, old(Snapshot()), rounds, last, poisoned)
      ensures EndsAs(tt, old(Snapshot()), rounds, last, poisoned, store.Snapshot(), fs.disk, mirror)
      ensures fs.history == old(fs.history) + FinishTrace(tt, old(Snapshot()), rounds, last, poisoned)
    {
      ghost var w, h := Snapshot(), fs.history;
      for i := 0 to |rounds|
        invariant Snapshot() == Drain(tt, w, rounds[..i])
        invariant fs.history == h + CrashTrace(tt, w, rounds[..i])
      {
        ServeRound(rounds[i]);
        DrainSnoc(tt, w, rounds, i, h);
      }
      assert rounds[..|rounds|] == rounds;
      if dirty {
        FinalRound(tt, w, rounds, last, poisoned, h);
        var ok := PersistNow(last, poisoned);
        dirty := true;
      }
      FinishEnds(tt, w, rounds, last, poisoned);
    }
  }

  lemma DrainSnoc(tt: TimeText, w: World, rounds: seq<Round>, i: nat, h: seq<Disk>)
    requires i < |rounds|
    ensures var before := Drain(tt, w, rounds[..i]);
            && Drain(tt, w, rounds[..i + 1]) == AfterRound(tt, before, rounds[i])
            && h + CrashTrace(tt, w, rounds[..i + 1])
               == (h + CrashTrace(tt, w, rounds[..i]))
                  + AtomicFile.CrashPoints(before.disk, Encode(tt, Fold(before.memory, rounds[i].batch)), STATE_FILE_MODE,
                                           rounds[i].env, AtomicFile.Reached(rounds[i].env))
  {
    assert rounds[..i + 1][..i] == rounds[..i];
  }

  lemma FinalRound(tt: TimeText, w: World, rounds: seq<Round>, last: Env, poisoned: bool, h: seq<Disk>)
    requires Drain(tt, w, rounds).dirty
    ensures var before := Drain(tt, w, rounds);
            h + FinishTrace(tt, w, rounds, last, poisoned)
            == (h + CrashTrace(tt, w, rounds))
               + AtomicFile.CrashPoints(before.disk, Encode(tt, before.memory), STATE_FILE_MODE, last, AtomicFile.Reached(last))
  {
    var extended := rounds + [Round([], last, poisoned)];
    assert extended[..|extended| - 1] == rounds;
  }
}
