// Atomic durable replacement of a file as a sequence of file-system steps, with a
// failure or a crash allowed at every one of them (src/util.rs).

module AtomicFile {
  import opened Prelude

  /** What a directory entry may show: nothing, a complete content, or unspecified bytes. */
  datatype Entry<+C> = Absent | Intact(content: C) | Torn

  datatype Temp<+C> = NoTemp | Temp(content: Option<C>, mode: nat, synced: bool)

  /**
   * `dest` is the entry processes see now. `durable` holds every entry a power loss at this
   * moment may leave: directory updates reach the device only when the directory is synced.
   */
  datatype Disk<C(==)> = Disk(temp: Temp<C>, dest: Entry<C>, destMode: nat, durable: set<Entry<C>>)

  datatype Step = CreateTemp | WriteAll | ChmodTemp | SyncTemp | Rename | ChmodDest | OpenDir | SyncDir

  const PROGRAM: seq<Step> := [CreateTemp, WriteAll, ChmodTemp, SyncTemp, Rename, ChmodDest, OpenDir, SyncDir]

  /** The environment's choices for one attempt: which step fails, and the mode a rename leaves. */
  datatype Env = Env(fault: Option<Step>, renamedMode: nat)

  /** Private mode a fresh temporary file is created with. */
  const TEMP_MODE: nat := 384 // 0o600

  // ---------------------------------------------------------------------
  // Specification
  // ---------------------------------------------------------------------

  /**
   * The effect of one successful step. A sync covers the bytes and the mode as they are then; renaming a
   * temp file changed since, or never synced, exposes torn content.
   */
  function Exec<C(==)>(d: Disk<C>, step: Step, contents: C, mode: nat, env: Env): Disk<C> {
    match step
    case CreateTemp => d.(temp := Temp(None, TEMP_MODE, false))
    case WriteAll => d.(temp := Temp(Some(contents), if d.temp.Temp? then d.temp.mode else TEMP_MODE, false))
    case ChmodTemp => if d.temp.Temp? then d.(temp := d.temp.(mode := mode, synced := false)) else d
    case SyncTemp => if d.temp.Temp? then d.(temp := d.temp.(synced := true)) else d
    case Rename =>
      var entry := if d.temp.Temp? && d.temp.synced && d.temp.content.Some? then Intact(d.temp.content.value) else Torn;
      d.(temp := NoTemp, dest := entry, destMode := env.renamedMode, durable := d.durable + {entry})
    case ChmodDest => d.(destMode := mode)
    case OpenDir => d
    case SyncDir => d.(durable := {d.dest})
  }

  function IndexOf(step: Step): (i: nat)
    ensures i < |PROGRAM| && PROGRAM[i] == step
  {
    match step
    case CreateTemp => 0
    case WriteAll => 1
    case ChmodTemp => 2
    case SyncTemp => 3
    case Rename => 4
    case ChmodDest => 5
    case OpenDir => 6
    case SyncDir => 7
  }

  /** How many steps of an attempt succeed. */
  function Reached(env: Env): (n: nat)
    ensures n <= |PROGRAM|
  {
    match env.fault
    case None => |PROGRAM|
    case Some(step) => IndexOf(step)
  }

  /** The disk after the first n steps of an attempt. */
  function After<C(==)>(d: Disk<C>, contents: C, mode: nat, env: Env, n: nat): Disk<C>
    requires n <= |PROGRAM|
  {
    if n == 0 then d else Exec(After(d, contents, mode, env, n - 1), PROGRAM[n - 1], contents, mode, env)
  }

  /** The disk when the attempt returns; a temp file left by a failure is removed. */
  function Outcome<C(==)>(d: Disk<C>, contents: C, mode: nat, env: Env): Disk<C> {
    After(d, contents, mode, env, Reached(env)).(temp := NoTemp)
  }

  /** Every intermediate disk of an attempt: the points at which a crash can strike. */
  function CrashPoints<C(==)>(d: Disk<C>, contents: C, mode: nat, env: Env, n: nat): seq<Disk<C>>
    requires n <= |PROGRAM|
  {
    if n == 0 then [] else CrashPoints(d, contents, mode, env, n - 1) + [After(d, contents, mode, env, n)]
  }

  /** Whether an attempt gets past its rename. */
  predicate Renames(env: Env) {
    Reached(env) > IndexOf(Rename)
  }

  // ---------------------------------------------------------------------
  // Properties
  // ---------------------------------------------------------------------

  lemma AfterWrite<C>(d: Disk<C>, contents: C, mode: nat, env: Env)
    ensures After(d, contents, mode, env, 4)
            == d.(temp := Temp(Some(contents), mode, true))
  {
    assert After(d, contents, mode, env, 1) == d.(temp := Temp(None, TEMP_MODE, false));
    assert After(d, contents, mode, env, 2) == d.(temp := Temp(Some(contents), TEMP_MODE, false));
    assert After(d, contents, mode, env, 3) == d.(temp := Temp(Some(contents), mode, false));
  }

  /**
   * A crash after any number of steps finds an entry that was possible before, or the complete new
   * content: never torn bytes. Before the rename only the former, after the directory sync only the latter.
   */
  lemma CrashSafe<C>(d: Disk<C>, contents: C, mode: nat, env: Env, n: nat)
    requires n <= |PROGRAM|
    ensures var d' := After(d, contents, mode, env, n);
            && d'.durable == (if n <= IndexOf(Rename) then d.durable
                              else if n < |PROGRAM| then d.durable + {Intact(contents)}
                              else {Intact(contents)})
            && d'.dest == (if n <= IndexOf(Rename) then d.dest else Intact(contents))
            && (d.dest in d.durable ==> d'.dest in d'.durable)
            && (n > IndexOf(ChmodDest) ==> d'.destMode == mode)
            && (n <= IndexOf(Rename) ==> d'.destMode == d.destMode)
  {
    AfterWrite(d, contents, mode, env);
    if n > 4 {
      var four := After(d, contents, mode, env, 4);
      var five := After(d, contents, mode, env, 5);
      assert five == Exec(four, Rename, contents, mode, env);
      var six := After(d, contents, mode, env, 6);
      assert six == five.(destMode := mode);
      var seven := After(d, contents, mode, env, 7);
      assert seven == six;
      assert After(d, contents, mode, env, 8) == seven.(durable := {seven.dest});
    } else {
      BeforeRename(d, contents, mode, env, n);
    }
  }

  lemma {:induction false} BeforeRename<C>(d: Disk<C>, contents: C, mode: nat, env: Env, n: nat)
    requires n <= IndexOf(Rename)
    ensures var d' := After(d, contents, mode, env, n);
            d'.durable == d.durable && d'.dest == d.dest && d'.destMode == d.destMode
  {
    if n > 0 {
      BeforeRename(d, contents, mode, env, n - 1);
    }
  }

  /** The temp file exists only before the rename: private from its creation until it is whole, then in the requested mode. */
  lemma TempIsPrivate<C>(d: Disk<C>, contents: C, mode: nat, env: Env, n: nat)
    requires 0 < n <= |PROGRAM|
    ensures var temp := After(d, contents, mode, env, n).temp;
            && (temp.Temp? <==> n <= 4)
            && (n <= 2 ==> temp.mode == 0x180)
            && (2 < n <= 4 ==> temp.mode == mode && temp.content == Some(contents))
  {
    AfterWrite(d, contents, mode, env);
    assert After(d, contents, mode, env, 1).temp == Temp(None, TEMP_MODE, false);
    assert After(d, contents, mode, env, 2).temp == Temp(Some(contents), TEMP_MODE, false);
    assert After(d, contents, mode, env, 3).temp == Temp(Some(contents), mode, false);
    if n > 4 {
      assert After(d, contents, mode, env, 5) == Exec(After(d, contents, mode, env, 4), Rename, contents, mode, env);
      assert After(d, contents, mode, env, 6).temp == After(d, contents, mode, env, 5).temp;
      assert After(d, contents, mode, env, 7).temp == After(d, contents, mode, env, 6).temp;
      assert After(d, contents, mode, env, 8).temp == After(d, contents, mode, env, 7).temp;
    }
  }

  /** Success means the new content, with the requested mode, is all a power loss can leave. */
  lemma AcknowledgedIsDurable<C>(d: Disk<C>, contents: C, mode: nat, env: Env)
    requires env.fault.None?
    ensures Outcome(d, contents, mode, env) == Disk(NoTemp, Intact(contents), mode, {Intact(contents)})
  {
    CrashSafe(d, contents, mode, env, |PROGRAM|);
  }

  /** A failed attempt leaves the old file or installs the new one; which, and in what mode, depends on the step alone. */
  lemma FailureOutcome<C>(d: Disk<C>, contents: C, mode: nat, env: Env)
    requires env.fault.Some?
    ensures var d' := Outcome(d, contents, mode, env);
            && d'.dest == (if Renames(env) then Intact(contents) else d.dest)
            && d'.durable == (if Renames(env) then d.durable + {Intact(contents)} else d.durable)
            && d'.destMode == (if !Renames(env) then d.destMode
                               else if env.fault == Some(ChmodDest) then env.renamedMode else mode)
            && d'.temp.NoTemp?
  {
    CrashSafe(d, contents, mode, env, Reached(env));
    if env.fault == Some(ChmodDest) {
      ModeAfterRename(d, contents, mode, env);
    }
  }

  lemma ModeAfterRename<C>(d: Disk<C>, contents: C, mode: nat, env: Env)
    ensures After(d, contents, mode, env, 5).destMode == env.renamedMode
  {
    var four := After(d, contents, mode, env, 4);
    assert After(d, contents, mode, env, 5) == Exec(four, Rename, contents, mode, env);
  }

  /**
   * The documentation says a failed write leaves the destination unchanged. For content and mode
   * together that holds exactly when the failing step is not one of the three after the rename, or the
   * content was already there in the mode the failure leaves: the requested one, or the renamed file's
   * own if setting it is what failed.
   */
  lemma FailureLeavesDestination<C>(d: Disk<C>, contents: C, mode: nat, env: Env)
    requires env.fault.Some?
    ensures var d' := Outcome(d, contents, mode, env);
            d'.dest == d.dest && d'.destMode == d.destMode
            <==> || env.fault.value !in {ChmodDest, OpenDir, SyncDir}
                 || (d.dest == Intact(contents)
                     && d.destMode == if env.fault.value == ChmodDest then env.renamedMode else mode)
  {
    FailureOutcome(d, contents, mode, env);
  }

  /** A concrete failure that replaces the file: the directory cannot be opened after the rename. */
  lemma FailureCanReplaceDestination()
    ensures var d := Disk(NoTemp, Intact("old"), 420, {Intact("old")});
            var d' := Outcome(d, "new", 384, Env(Some(OpenDir), 384));
            d'.dest == Intact("new") && d'.destMode == 384
  {
    FailureOutcome(Disk(NoTemp, Intact("old"), 420, {Intact("old")}), "new", 384, Env(Some(OpenDir), 384));
  }

  // ---------------------------------------------------------------------
  // The protocol itself
  // ---------------------------------------------------------------------

  class FileSystem<C(==)> {
    var disk: Disk<C>
    /** The disk after each system call that took effect, oldest first: where a crash may have struck. */
    ghost var history: seq<Disk<C>>

    constructor (initial: Disk<C>)
      ensures disk == initial && history == []
    {
      disk := initial;
      history := [];
    }

    /**
     * System call number n of an attempt that began on d0: it takes effect, or fails and changes
     * nothing. m calls have taken effect then.
     */
    method Call(step: Step, contents: C, mode: nat, env: Env, ghost d0: Disk<C>, ghost h0: seq<Disk<C>>, ghost n: nat)
      returns (ok: bool, ghost m: nat)
      requires n < |PROGRAM| && step == PROGRAM[n] && n <= Reached(env)
      requires disk == After(d0, contents, mode, env, n)
      requires history == h0 + CrashPoints(d0, contents, mode, env, n)
      modifies this
      ensures ok <==> n < Reached(env)
      ensures m == if ok then n + 1 else n
      ensures disk == After(d0, contents, mode, env, m)
      ensures history == h0 + CrashPoints(d0, contents, mode, env, m)
    {
      if env.fault == Some(step) {
        return false, n;
      }
      disk := Exec(disk, step, contents, mode, env);
      history := history + [disk];
      return true, n + 1;
    }

    /** Write a temp file, set its mode and sync it. */
    method StageTemp(contents: C, mode: nat, env: Env, ghost d0: Disk<C>, ghost h0: seq<Disk<C>>)
      returns (ok: bool, ghost n: nat)
      requires disk == d0 && history == h0
      modifies this
      ensures n == if ok then 4 else Reached(env)
      ensures n <= Reached(env) && (!ok ==> env.fault.Some?)
      ensures disk == After(d0, contents, mode, env, n)
      ensures history == h0 + CrashPoints(d0, contents, mode, env, n)
    {
      n := 0;
      ok, n := Call(CreateTemp, contents, mode, env, d0, h0, n);
      if !ok { return; }
      ok, n := Call(WriteAll, contents, mode, env, d0, h0, n);
      if !ok { return; }
      ok, n := Call(ChmodTemp, contents, mode, env, d0, h0, n);
      if !ok { return; }
      ok, n := Call(SyncTemp, contents, mode, env, d0, h0, n);
    }

    /** Rename the staged file over the destination, reassert the mode, sync the directory. */
    method Publish(contents: C, mode: nat, env: Env, ghost d0: Disk<C>, ghost h0: seq<Disk<C>>, ghost staged: nat)
      returns (ok: bool)
      requires staged == 4 <= Reached(env)
      requires disk == After(d0, contents, mode, env, staged)
      requires history == h0 + CrashPoints(d0, contents, mode, env, staged)
      modifies this
      ensures ok <==> env.fault.None?
      ensures disk == After(d0, contents, mode, env, Reached(env))
      ensures history == h0 + CrashPoints(d0, contents, mode, env, Reached(env))
    {
      ghost var n := staged;
      ok, n := Call(Rename, contents, mode, env, d0, h0, n);
      if !ok { return; }
      ok, n := Call(ChmodDest, contents, mode, env, d0, h0, n);
      if !ok { return; }
      ok, n := Call(OpenDir, contents, mode, env, d0, h0, n);
      if !ok { return; }
      ok, n := Call(SyncDir, contents, mode, env, d0, h0, n);
    }

    /** One attempt; dropping the handle of a temp file that was not renamed removes it. */
    method AtomicWrite(contents: C, mode: nat, env: Env) returns (ok: bool)
      modifies this
      ensures ok <==> env.fault.None?
      ensures disk == Outcome(old(disk), contents, mode, env)
      ensures history == old(history) + CrashPoints(old(disk), contents, mode, env, Reached(env))
    {
      ghost var d0, h0, n := disk, history, 0;
      ok, n := StageTemp(contents, mode, env, d0, h0);
      if ok {
        ok := Publish(contents, mode, env, d0, h0, n);
      }
      disk := disk.(temp := NoTemp);
    }
  }
}
