// Concurrent appenders sharing one spool file through an advisory lock (src/mail/notifier.rs,
// write_with_lock). Every system call is a step; appenders interleave at will.

module Spool {
  import opened Prelude
  import opened Mbox

  /** Where one appender is. A failed one dropped the lock after `done` bytes. */
  datatype Phase = Waiting | Writing(done: nat) | Synced | Finished | Failed(done: nat)

  /** The spool as found, and the message of each appender. */
  datatype Job = Job(initial: string, messages: seq<string>)

  /** `order` records who took the lock, oldest first. */
  datatype Spool = Spool(file: string, holder: Option<nat>, phases: seq<Phase>, order: seq<nat>)

  datatype Step =
    | Acquire(p: nat)
    | Append(p: nat, n: nat)
    | Sync(p: nat)
    | Release(p: nat)
    | Fail(p: nat)

  function Start(job: Job): Spool {
    Spool(job.initial, None, seq(|job.messages|, _ => Waiting), [])
  }

  predicate Enabled(job: Job, s: Spool, step: Step) {
    step.p < |s.phases| == |job.messages| &&
    match step
    case Acquire(p) => s.phases[p].Waiting? && s.holder.None?
    case Append(p, n) => s.phases[p].Writing? && 0 < n && s.phases[p].done + n <= |job.messages[p]|
    case Sync(p) => s.phases[p].Writing? && s.phases[p].done == |job.messages[p]|
    case Release(p) => s.phases[p].Synced?
    case Fail(p) => s.phases[p].Writing? && s.phases[p].done <= |job.messages[p]|
  }

  function Next(job: Job, s: Spool, step: Step): Spool
    requires Enabled(job, s, step)
  {
    match step
    case Acquire(p) => s.(holder := Some(p), phases := s.phases[p := Writing(0)], order := s.order + [p])
    case Append(p, n) =>
      var done := s.phases[p].done;
      s.(file := s.file + job.messages[p][done..done + n], phases := s.phases[p := Writing(done + n)])
    case Sync(p) => s.(phases := s.phases[p := Synced])
    case Release(p) => s.(holder := None, phases := s.phases[p := Finished])
    case Fail(p) => s.(holder := None, phases := s.phases[p := Failed(s.phases[p].done)])
  }

  /** The state a schedule leads to; None when some step of it was not possible. */
  function Run(job: Job, s: Spool, steps: seq<Step>): Option<Spool> {
    if steps == [] then Some(s)
    else
      match Run(job, s, steps[..|steps| - 1])
      case None => None
      case Some(t) =>
        if Enabled(job, t, steps[|steps| - 1]) then Some(Next(job, t, steps[|steps| - 1])) else None
  }

  // ---------------------------------------------------------------------
  // The invariant
  // ---------------------------------------------------------------------

  function Done(phase: Phase, full: nat): nat {
    match phase
    case Waiting => 0
    case Writing(d) => d
    case Synced => full
    case Finished => full
    case Failed(d) => d
  }

  predicate Holds(phase: Phase) {
    phase.Writing? || phase.Synced?
  }

  ghost predicate InRange(job: Job, phases: seq<Phase>, order: seq<nat>) {
    && |phases| == |job.messages|
    && (forall q :: 0 <= q < |phases| ==> Done(phases[q], |job.messages[q]|) <= |job.messages[q]|)
    && (forall i :: 0 <= i < |order| ==> order[i] < |phases|)
  }

  /** What each appender contributed so far, in lock order. */
  ghost function Pieces(job: Job, phases: seq<Phase>, order: seq<nat>): (r: seq<string>)
    requires InRange(job, phases, order)
    ensures |r| == |order|
    ensures forall i :: 0 <= i < |order| ==>
              r[i] == job.messages[order[i]][..Done(phases[order[i]], |job.messages[order[i]]|)]
  {
    seq(|order|, i requires 0 <= i < |order| => job.messages[order[i]][..Done(phases[order[i]], |job.messages[order[i]]|)])
  }

  ghost predicate Distinct(order: seq<nat>) {
    forall i, j :: 0 <= i < j < |order| ==> order[i] != order[j]
  }

  ghost predicate Inv(job: Job, s: Spool) {
    && InRange(job, s.phases, s.order)
    && Distinct(s.order)
    && (forall q :: 0 <= q < |s.phases| ==> (q in s.order <==> !s.phases[q].Waiting?))
    && (forall i :: 0 <= i < |s.order| - 1 ==> !Holds(s.phases[s.order[i]]))
    && (match s.holder
        case None => s.order != [] ==> !Holds(s.phases[s.order[|s.order| - 1]])
        case Some(h) => s.order != [] && s.order[|s.order| - 1] == h && Holds(s.phases[h]))
    && s.file == job.initial + Concat(Pieces(job, s.phases, s.order))
  }

  lemma ConcatSnoc(init: seq<string>, last: string)
    ensures Concat(init + [last]) == Concat(init) + last
  {
    assert (init + [last])[..|init|] == init;
  }

  lemma PrefixGrows(m: string, d: nat, d': nat)
    requires d <= d' <= |m|
    ensures m[..d'] == m[..d] + m[d..d']
  {
  }

  lemma LastGrows(initial: string, init: seq<string>, m: string, d: nat, d': nat)
    requires d <= d' <= |m|
    ensures initial + Concat(init + [m[..d']]) == initial + Concat(init + [m[..d]]) + m[d..d']
  {
    ConcatSnoc(init, m[..d]);
    ConcatSnoc(init, m[..d']);
    PrefixGrows(m, d, d');
    Regroup2(Concat(init), m[..d], m[d..d']);
    Regroup2(initial, Concat(init) + m[..d], m[d..d']);
  }

  lemma LastPieceChanges(job: Job, phases: seq<Phase>, order: seq<nat>, p: nat, phase: Phase)
    requires InRange(job, phases, order) && Distinct(order) && order != [] && p == order[|order| - 1]
    requires Done(phase, |job.messages[p]|) <= |job.messages[p]|
    ensures InRange(job, phases[p := phase], order)
    ensures Pieces(job, phases[p := phase], order)
            == Pieces(job, phases, order)[..|order| - 1] + [job.messages[p][..Done(phase, |job.messages[p]|)]]
  {
  }

  /** Only the last of the lock order may move, and the file grows by what it adds. */
  lemma LastPieceMoves(job: Job, phases: seq<Phase>, order: seq<nat>, p: nat, phase: Phase)
    requires InRange(job, phases, order) && Distinct(order) && order != [] && p == order[|order| - 1]
    requires Done(phases[p], |job.messages[p]|) <= Done(phase, |job.messages[p]|) <= |job.messages[p]|
    ensures InRange(job, phases[p := phase], order)
    ensures job.initial + Concat(Pieces(job, phases[p := phase], order))
            == job.initial + Concat(Pieces(job, phases, order))
               + job.messages[p][Done(phases[p], |job.messages[p]|)..Done(phase, |job.messages[p]|)]
  {
    var m := job.messages[p];
    LastPieceChanges(job, phases, order, p, phase);
    var pieces := Pieces(job, phases, order);
    assert pieces == pieces[..|order| - 1] + [m[..Done(phases[p], |m|)]];
    LastGrows(job.initial, pieces[..|order| - 1], m, Done(phases[p], |m|), Done(phase, |m|));
  }

  lemma HolderIsLast(job: Job, s: Spool, p: nat)
    requires Inv(job, s) && p < |s.phases| && Holds(s.phases[p])
    ensures s.order != [] && s.order[|s.order| - 1] == p && s.holder == Some(p)
  {
    assert p in s.order;
    var i :| 0 <= i < |s.order| && s.order[i] == p;
    assert i == |s.order| - 1;
  }

  lemma AcquireKeeps(job: Job, s: Spool, p: nat)
    requires Inv(job, s) && Enabled(job, s, Acquire(p))
    ensures Inv(job, Next(job, s, Acquire(p)))
  {
    var t := Next(job, s, Acquire(p));
    assert p !in s.order;
    var a, b := Pieces(job, s.phases, s.order), Pieces(job, t.phases, t.order);
    assert b == a + [""];
    ConcatSnoc(a, "");
    assert Concat(a) + "" == Concat(a);
    forall q | 0 <= q < |t.phases|
      ensures q in t.order <==> !t.phases[q].Waiting?
    {
      if q != p {
        assert q in t.order <==> q in s.order;
      } else {
        assert t.order[|t.order| - 1] == p;
      }
    }
  }

  /** The lock holder moves to `phase`, keeping the lock or letting it go. */
  lemma HolderMoves(job: Job, s: Spool, t: Spool, p: nat, phase: Phase)
    requires Inv(job, s) && p < |s.phases| && Holds(s.phases[p]) && !phase.Waiting?
    requires Done(s.phases[p], |job.messages[p]|) <= Done(phase, |job.messages[p]|) <= |job.messages[p]|
    requires t.phases == s.phases[p := phase] && t.order == s.order
    requires t.holder == if Holds(phase) then s.holder else None
    requires t.file == s.file + job.messages[p][Done(s.phases[p], |job.messages[p]|)..Done(phase, |job.messages[p]|)]
    ensures Inv(job, t)
  {
    HolderIsLast(job, s, p);
    LastPieceMoves(job, s.phases, s.order, p, phase);
    forall i | 0 <= i < |s.order| - 1
      ensures !Holds(t.phases[s.order[i]])
    {
      assert s.order[i] != p;
    }
  }

  /** Every step of every appender keeps the invariant. */
  lemma StepKeeps(job: Job, s: Spool, step: Step)
    requires Inv(job, s) && Enabled(job, s, step)
    ensures Inv(job, Next(job, s, step))
  {
    var p := step.p;
    if step.Acquire? {
      AcquireKeeps(job, s, p);
    } else {
      var t := Next(job, s, step);
      assert s.file + "" == s.file;
      HolderIsLast(job, s, p);
      HolderMoves(job, s, t, p, t.phases[p]);
    }
  }

  lemma StartHolds(job: Job)
    ensures Inv(job, Start(job))
  {
    assert Pieces(job, Start(job).phases, []) == [];
    assert job.initial + "" == job.initial;
  }

  lemma {:induction false} RunKeepsFrom(job: Job, s: Spool, steps: seq<Step>)
    requires Inv(job, s) && Run(job, s, steps).Some?
    ensures Inv(job, Run(job, s, steps).value)
  {
    if steps != [] {
      var init := steps[..|steps| - 1];
      RunKeepsFrom(job, s, init);
      StepKeeps(job, Run(job, s, init).value, steps[|steps| - 1]);
    }
  }

  lemma RunKeeps(job: Job, steps: seq<Step>)
    requires Run(job, Start(job), steps).Some?
    ensures Inv(job, Run(job, Start(job), steps).value)
  {
    StartHolds(job);
    RunKeepsFrom(job, Start(job), steps);
  }

  // ---------------------------------------------------------------------
  // Spool integrity
  // ---------------------------------------------------------------------

  /** The whole message of appender q is in the file, whether or not its sync came through. */
  predicate Whole(job: Job, phases: seq<Phase>, q: nat)
    requires q < |phases| == |job.messages|
  {
    Done(phases[q], |job.messages[q]|) == |job.messages[q]|
  }

  /** The messages that are in the file as a whole, in lock order. */
  function Delivered(job: Job, phases: seq<Phase>, order: seq<nat>): seq<string>
    requires |phases| == |job.messages| && forall i :: 0 <= i < |order| ==> order[i] < |phases|
  {
    if order == [] then []
    else
      var n := |order| - 1;
      Delivered(job, phases, order[..n]) + if Whole(job, phases, order[n]) then [job.messages[order[n]]] else []
  }

  lemma {:induction false} DeliveredAre(job: Job, phases: seq<Phase>, order: seq<nat>, m: string)
    requires |phases| == |job.messages| && forall i :: 0 <= i < |order| ==> order[i] < |phases|
    requires m in Delivered(job, phases, order)
    ensures exists q :: 0 <= q < |job.messages| && job.messages[q] == m
  {
    var n := |order| - 1;
    if m in Delivered(job, phases, order[..n]) {
      DeliveredAre(job, phases, order[..n], m);
    } else {
      assert job.messages[order[n]] == m;
    }
  }

  lemma PiecesSnoc(job: Job, phases: seq<Phase>, order: seq<nat>)
    requires InRange(job, phases, order) && order != []
    ensures var n := |order| - 1;
            var m := job.messages[order[n]];
            && InRange(job, phases, order[..n])
            && Concat(Pieces(job, phases, order)) == Concat(Pieces(job, phases, order[..n])) + m[..Done(phases[order[n]], |m|)]
  {
    assert Pieces(job, phases, order)[..|order| - 1] == Pieces(job, phases, order[..|order| - 1]);
  }

  /** Every appender has put out its whole message or nothing of it. */
  predicate AllOrNothing(job: Job, phases: seq<Phase>)
    requires |phases| == |job.messages|
  {
    forall q :: 0 <= q < |phases| ==> Whole(job, phases, q) || Done(phases[q], |job.messages[q]|) == 0
  }

  lemma {:induction false} PiecesDelivered(job: Job, phases: seq<Phase>, order: seq<nat>)
    requires InRange(job, phases, order)
    requires AllOrNothing(job, phases)
    ensures Concat(Pieces(job, phases, order)) == Concat(Delivered(job, phases, order))
  {
    if order != [] {
      var n := |order| - 1;
      PiecesSnoc(job, phases, order);
      PiecesDelivered(job, phases, order[..n]);
      var before, m := Delivered(job, phases, order[..n]), job.messages[order[n]];
      if Whole(job, phases, order[n]) {
        assert m[..|m|] == m;
        ConcatSnoc(before, m);
      } else {
        assert m[..0] == "" && Concat(before) + "" == Concat(before);
        assert before + [] == before;
      }
    }
  }

  /**
   * However the appenders' partial writes interleave with everything else, and whichever writes and syncs
   * failed: whenever every message is out as a whole or not at all, the spool is what it was plus those
   * messages, in lock order, each appender's at most once and no finished one missing, and a reader
   * recovers exactly them after the records already there.
   */
  lemma SpoolIntegrity(job: Job, steps: seq<Step>)
    requires forall q :: 0 <= q < |job.messages| ==> IsRecord(job.messages[q])
    requires AtLineStart(job.initial)
    requires Run(job, Start(job), steps).Some?
    requires var s := Run(job, Start(job), steps).value;
             |s.phases| == |job.messages| && AllOrNothing(job, s.phases)
    ensures var s := Run(job, Start(job), steps).value;
            && InRange(job, s.phases, s.order) && Distinct(s.order)
            && (forall q :: 0 <= q < |s.phases| && s.phases[q].Finished? ==> q in s.order && Whole(job, s.phases, q))
            && s.file == job.initial + Concat(Delivered(job, s.phases, s.order))
            && Records(s.file) == Records(job.initial) + Delivered(job, s.phases, s.order)
  {
    RunKeeps(job, steps);
    var s := Run(job, Start(job), steps).value;
    PiecesDelivered(job, s.phases, s.order);
    var ms := Delivered(job, s.phases, s.order);
    forall i | 0 <= i < |ms|
      ensures IsRecord(ms[i])
    {
      DeliveredAre(job, s.phases, s.order, ms[i]);
    }
    SpoolRecovered(job.initial, ms);
  }

  /** The text in front of the k-th appender's contribution. */
  ghost function Before(job: Job, s: Spool, k: nat): string
    requires InRange(job, s.phases, s.order) && k <= |s.order|
  {
    job.initial + Concat(Pieces(job, s.phases, s.order)[..k])
  }

  /** Everything written after the k-th appender's contribution. */
  ghost function Behind(job: Job, s: Spool, k: nat): string
    requires InRange(job, s.phases, s.order) && k < |s.order|
  {
    Concat(Pieces(job, s.phases, s.order)[k + 1..])
  }

  /** How many bytes the i-th in lock order has in the file. */
  function Share(job: Job, s: Spool, i: nat): nat
    requires |s.phases| == |job.messages| && i < |s.order| && s.order[i] < |s.phases|
  {
    Done(s.phases[s.order[i]], |job.messages[s.order[i]]|)
  }

  /**
   * The text in front of the k-th stops in mid-line: the last appender before it that wrote anything
   * stopped short of a line end, or none wrote anything and the spool was found in mid-line.
   */
  ghost predicate OpenBefore(job: Job, s: Spool, k: nat)
    requires InRange(job, s.phases, s.order) && k <= |s.order|
  {
    || (!AtLineStart(job.initial) && forall i :: 0 <= i < k ==> Share(job, s, i) == 0)
    || (exists j :: 0 <= j < k && Share(job, s, j) > 0
                    && job.messages[s.order[j]][Share(job, s, j) - 1] != '\n'
                    && forall i :: j < i < k ==> Share(job, s, i) == 0)
  }

  /** The first appender after the k-th that wrote anything wrote only 1 to 4 bytes, less than a separator. */
  ghost predicate ShortAfter(job: Job, s: Spool, k: nat)
    requires InRange(job, s.phases, s.order)
  {
    exists j :: k < j < |s.order| && 1 <= Share(job, s, j) <= 4 && forall i :: k < i < j ==> Share(job, s, i) == 0
  }

  /** An appender with so little in the file has not finished: it is mid-write or failed there. */
  lemma ShortIsUnfinished(job: Job, s: Spool, j: nat)
    requires InRange(job, s.phases, s.order) && j < |s.order| && 1 <= Share(job, s, j) <= 4
    requires IsRecord(job.messages[s.order[j]])
    ensures s.phases[s.order[j]] == Failed(Share(job, s, j)) || s.phases[s.order[j]] == Writing(Share(job, s, j))
  {
    RecordEndsLine(job.messages[s.order[j]]);
  }

  /** The same two conditions on the pieces themselves. */
  predicate OpenEnd(initial: string, pieces: seq<string>) {
    || (!AtLineStart(initial) && forall i :: 0 <= i < |pieces| ==> pieces[i] == "")
    || (exists j :: 0 <= j < |pieces| && pieces[j] != "" && !EndsWithNewline(pieces[j])
                    && forall i :: j < i < |pieces| ==> pieces[i] == "")
  }

  ghost predicate ShortStart(pieces: seq<string>) {
    exists j: nat :: ShortAt(pieces, j)
  }

  lemma OpenEndSnoc(initial: string, pieces: seq<string>, last: string)
    ensures OpenEnd(initial, pieces + [last]) <==> if last == "" then OpenEnd(initial, pieces) else !EndsWithNewline(last)
  {
    var all, n := pieces + [last], |pieces|;
    assert all[n] == last && forall i :: 0 <= i < n ==> all[i] == pieces[i];
    if last == "" && OpenEnd(initial, pieces) && AtLineStart(initial) {
      var j :| 0 <= j < n && pieces[j] != "" && !EndsWithNewline(pieces[j]) && forall i :: j < i < n ==> pieces[i] == "";
      assert all[j] != "" && !EndsWithNewline(all[j]);
    }
  }

  lemma {:induction false} OpenEndIff(initial: string, pieces: seq<string>)
    ensures OpenEnd(initial, pieces) <==> !AtLineStart(initial + Concat(pieces))
  {
    if pieces == [] {
      assert initial + Concat(pieces) == initial;
    } else {
      var init, last := pieces[..|pieces| - 1], pieces[|pieces| - 1];
      OpenEndIff(initial, init);
      OpenEndSnoc(initial, init, last);
      assert pieces == init + [last];
      Regroup2(initial, Concat(init), last);
      if last == "" {
        assert initial + Concat(init) + last == initial + Concat(init);
      }
    }
  }

  /** What a prefix of a record looks like. */
  predicate BeginsRecord(piece: string) {
    piece <= FROM || FROM <= piece
  }

  lemma PrefixBeginsRecord(m: string, d: nat)
    requires IsRecord(m) && d <= |m|
    ensures BeginsRecord(m[..d])
  {
    RecordEndsLine(m);
  }

  lemma ConcatCons(first: string, rest: seq<string>)
    ensures Concat([first] + rest) == first + Concat(rest)
  {
    ConcatAppend([first], rest);
    assert Concat([first]) == Concat([]) + first == first;
  }

  lemma {:induction false} PiecesBegin(pieces: seq<string>)
    requires forall i :: 0 <= i < |pieces| ==> BeginsRecord(pieces[i])
    ensures Concat(pieces) != "" ==> Concat(pieces)[0] == 'F'
  {
    if pieces != [] {
      PiecesBegin(pieces[1..]);
      assert pieces == [pieces[0]] + pieces[1..];
      ConcatCons(pieces[0], pieces[1..]);
    }
  }

  predicate ShortAt(pieces: seq<string>, j: nat) {
    j < |pieces| && 1 <= |pieces[j]| <= 4 && forall i :: 0 <= i < j ==> pieces[i] == ""
  }

  lemma ShortAtTail(rest: seq<string>, j: nat)
    ensures ShortAt([""] + rest, j + 1) <==> ShortAt(rest, j)
    ensures !ShortAt([""] + rest, 0)
  {
    var all := [""] + rest;
    if ShortAt(all, j + 1) {
      assert forall i :: 0 <= i < j ==> rest[i] == all[i + 1];
    }
  }

  lemma ShortStartCons(first: string, rest: seq<string>)
    ensures ShortStart([first] + rest) <==> if first == "" then ShortStart(rest) else |first| <= 4
  {
    var all := [first] + rest;
    if first != "" {
      assert |first| <= 4 ==> ShortAt(all, 0);
    } else {
      if ShortStart(rest) {
        var j: nat :| ShortAt(rest, j);
        ShortAtTail(rest, j);
      }
      if ShortStart(all) {
        var j: nat :| ShortAt(all, j);
        ShortAtTail(rest, if j > 0 then j - 1 else 0);
        assert ShortAt(rest, j - 1);
      }
    }
  }

  /** Fewer bytes than a separator, followed by nothing or by the start of a record, are no separator. */
  lemma ShortIsNoSeparator(first: string, rest: string)
    requires BeginsRecord(first) && 1 <= |first| <= 4 && (rest != "" ==> rest[0] == 'F')
    ensures !IsFromLine(first + rest)
  {
    if |first + rest| > |first| {
      assert (first + rest)[|first|] == 'F';
      assert FROM[1] == 'r' && FROM[2] == 'o' && FROM[3] == 'm' && FROM[4] == ' ';
    }
  }

  lemma {:induction false} ShortStartIff(pieces: seq<string>)
    requires forall i :: 0 <= i < |pieces| ==> BeginsRecord(pieces[i])
    ensures ShortStart(pieces) <==> Concat(pieces) != "" && !IsFromLine(Concat(pieces))
  {
    if pieces != [] {
      var first, rest := pieces[0], pieces[1..];
      assert pieces == [first] + rest;
      ShortStartIff(rest);
      ShortStartCons(first, rest);
      ConcatCons(first, rest);
      PiecesBegin(rest);
      if first == "" {
        assert first + Concat(rest) == Concat(rest);
      } else if |first| <= 4 {
        ShortIsNoSeparator(first, Concat(rest));
      }
    }
  }

  lemma OpenIsOpen(job: Job, s: Spool, k: nat, pieces: seq<string>)
    requires InRange(job, s.phases, s.order) && |pieces| == k <= |s.order|
    requires forall i :: 0 <= i < k ==> |pieces[i]| == Share(job, s, i)
    requires forall i :: 0 <= i < k && Share(job, s, i) > 0 ==>
               pieces[i][Share(job, s, i) - 1] == job.messages[s.order[i]][Share(job, s, i) - 1]
    ensures OpenBefore(job, s, k) <==> OpenEnd(job.initial, pieces)
  {
    if OpenBefore(job, s, k) && AtLineStart(job.initial) {
      var j :| 0 <= j < k && Share(job, s, j) > 0 && job.messages[s.order[j]][Share(job, s, j) - 1] != '\n'
               && forall i :: j < i < k ==> Share(job, s, i) == 0;
      assert pieces[j] != "" && !EndsWithNewline(pieces[j]);
    }
  }

  lemma SharesDecideBefore(job: Job, s: Spool, k: nat)
    requires InRange(job, s.phases, s.order) && k <= |s.order|
    ensures OpenBefore(job, s, k) <==> !AtLineStart(Before(job, s, k))
  {
    var pieces := Pieces(job, s.phases, s.order)[..k];
    forall i | 0 <= i < k
      ensures |pieces[i]| == Share(job, s, i)
      ensures Share(job, s, i) > 0 ==> pieces[i][Share(job, s, i) - 1] == job.messages[s.order[i]][Share(job, s, i) - 1]
    {
      assert pieces[i] == job.messages[s.order[i]][..Share(job, s, i)];
    }
    OpenEndIff(job.initial, pieces);
    OpenIsOpen(job, s, k, pieces);
  }

  lemma SharesDecideBehind(job: Job, s: Spool, k: nat)
    requires InRange(job, s.phases, s.order) && k < |s.order|
    requires forall q :: 0 <= q < |job.messages| ==> IsRecord(job.messages[q])
    ensures ShortAfter(job, s, k) <==> Behind(job, s, k) != "" && !IsFromLine(Behind(job, s, k))
  {
    var pieces := Pieces(job, s.phases, s.order)[k + 1..];
    forall i | 0 <= i < |pieces|
      ensures |pieces[i]| == Share(job, s, k + 1 + i) && BeginsRecord(pieces[i])
    {
      assert pieces[i] == job.messages[s.order[k + 1 + i]][..Share(job, s, k + 1 + i)];
      PrefixBeginsRecord(job.messages[s.order[k + 1 + i]], Share(job, s, k + 1 + i));
    }
    ShortStartIff(pieces);
    ShortIsShort(job, s, k, pieces);
  }

  lemma ShortIsShort(job: Job, s: Spool, k: nat, pieces: seq<string>)
    requires InRange(job, s.phases, s.order) && k < |s.order| && |pieces| == |s.order| - k - 1
    requires forall i :: 0 <= i < |pieces| ==> |pieces[i]| == Share(job, s, k + 1 + i)
    ensures ShortAfter(job, s, k) <==> ShortStart(pieces)
  {
    if ShortAfter(job, s, k) {
      var j :| k < j < |s.order| && 1 <= Share(job, s, j) <= 4 && forall i :: k < i < j ==> Share(job, s, i) == 0;
      assert |pieces[j - k - 1]| == Share(job, s, k + 1 + (j - k - 1));
      forall i | 0 <= i < j - k - 1
        ensures pieces[i] == ""
      {
        assert Share(job, s, k + 1 + i) == 0;
      }
      assert ShortAt(pieces, j - k - 1);
    }
    if ShortStart(pieces) {
      var j: nat :| ShortAt(pieces, j);
      assert 1 <= Share(job, s, k + 1 + j) <= 4;
      forall i | k < i < k + 1 + j
        ensures Share(job, s, i) == 0
      {
        assert pieces[i - k - 1] == "";
      }
    }
  }

  lemma FileParts(job: Job, s: Spool, k: nat)
    requires Inv(job, s) && k < |s.order| && Whole(job, s.phases, s.order[k])
    ensures s.file == Before(job, s, k) + job.messages[s.order[k]] + Behind(job, s, k)
  {
    var pieces, m := Pieces(job, s.phases, s.order), job.messages[s.order[k]];
    assert m[..|m|] == m;
    assert pieces == pieces[..k] + ([m] + pieces[k + 1..]);
    ConcatAppend(pieces[..k], [m] + pieces[k + 1..]);
    ConcatCons(m, pieces[k + 1..]);
    var a, b := Concat(pieces[..k]), Behind(job, s, k);
    Regroup2(a, m, b);
    Regroup2(job.initial, a, m);
    Regroup2(job.initial, a + m, b);
  }

  /**
   * With failed writes among the appenders, exactly when a reader of the whole file finds a message that
   * is out as a whole as a record of its own, apart from what stands before and behind it: the bytes
   * before it do not stop in mid-line, and the first later appender with anything in the file did not stop
   * within the separator. Otherwise the file has fewer records than its three parts.
   */
  lemma WholeIsRecordIff(job: Job, steps: seq<Step>, k: nat)
    requires Run(job, Start(job), steps).Some?
    requires var s := Run(job, Start(job), steps).value;
             k < |s.order| && s.order[k] < |s.phases| == |job.messages| && Whole(job, s.phases, s.order[k])
    requires forall q :: 0 <= q < |job.messages| ==> IsRecord(job.messages[q])
    ensures var s := Run(job, Start(job), steps).value;
            && InRange(job, s.phases, s.order)
            && var before, m, behind := Before(job, s, k), job.messages[s.order[k]], Behind(job, s, k);
            && s.file == before + m + behind
            && (Records(s.file) == Records(before) + [m] + Records(behind)
                <==> !OpenBefore(job, s, k) && !ShortAfter(job, s, k))
            && (OpenBefore(job, s, k) || ShortAfter(job, s, k) ==>
                  |Records(s.file)| < |Records(before)| + 1 + |Records(behind)|)
  {
    RunKeeps(job, steps);
    var s := Run(job, Start(job), steps).value;
    FileParts(job, s, k);
    SharesDecideBefore(job, s, k);
    SharesDecideBehind(job, s, k);
    RecordInPlaceIff(Before(job, s, k), job.messages[s.order[k]], Behind(job, s, k));
  }

  // ---------------------------------------------------------------------
  // Both ways of losing a finished message
  // ---------------------------------------------------------------------

  lemma Take(job: Job, s0: Spool, steps: seq<Step>, s: Spool, step: Step, t: Spool) returns (all: seq<Step>)
    requires Run(job, s0, steps) == Some(s) && Enabled(job, s, step) && Next(job, s, step) == t
    ensures all == steps + [step] && Run(job, s0, all) == Some(t)
  {
    all := steps + [step];
    assert all[..|steps|] == steps;
  }

  /** Appender p takes the lock, writes n bytes in one go and fails. */
  lemma RunsAndFails(job: Job, s0: Spool, steps: seq<Step>, s: Spool, p: nat, n: nat) returns (all: seq<Step>, t: Spool)
    requires Run(job, s0, steps) == Some(s) && Enabled(job, s, Acquire(p)) && 0 < n <= |job.messages[p]|
    ensures all == steps + [Acquire(p), Append(p, n), Fail(p)] && Run(job, s0, all) == Some(t)
    ensures t == Spool(s.file + job.messages[p][..n], None, s.phases[p := Failed(n)], s.order + [p])
  {
    var s1 := s.(holder := Some(p), phases := s.phases[p := Writing(0)], order := s.order + [p]);
    var s2 := s1.(file := s.file + job.messages[p][0..n], phases := s.phases[p := Writing(n)]);
    t := s2.(holder := None, phases := s.phases[p := Failed(n)]);
    assert job.messages[p][0..n] == job.messages[p][..n];
    all := Take(job, s0, steps, s, Acquire(p), s1);
    all := Take(job, s0, all, s1, Append(p, n), s2);
    all := Take(job, s0, all, s2, Fail(p), t);
  }

  /** Appender p takes the lock, writes its message in one go, syncs and unlocks. */
  lemma RunsAndFinishes(job: Job, s0: Spool, steps: seq<Step>, s: Spool, p: nat) returns (all: seq<Step>, t: Spool)
    requires Run(job, s0, steps) == Some(s) && Enabled(job, s, Acquire(p)) && job.messages[p] != ""
    ensures all == steps + [Acquire(p), Append(p, |job.messages[p]|), Sync(p), Release(p)] && Run(job, s0, all) == Some(t)
    ensures t == Spool(s.file + job.messages[p], None, s.phases[p := Finished], s.order + [p])
  {
    var m := job.messages[p];
    var s1 := s.(holder := Some(p), phases := s.phases[p := Writing(0)], order := s.order + [p]);
    var s2 := s1.(file := s.file + m, phases := s.phases[p := Writing(|m|)]);
    var s3 := s2.(phases := s.phases[p := Synced]);
    t := s3.(holder := None, phases := s.phases[p := Finished]);
    assert m[0..|m|] == m;
    all := Take(job, s0, steps, s, Acquire(p), s1);
    all := Take(job, s0, all, s1, Append(p, |m|), s2);
    all := Take(job, s0, all, s2, Sync(p), s3);
    all := Take(job, s0, all, s3, Release(p), t);
  }

  /** For any two messages: the first stops in mid-line, the second is whole and lost. */
  lemma TornBeforeLoses(initial: string, m0: string, m1: string, n: nat) returns (steps: seq<Step>, s: Spool)
    requires IsRecord(m0) && IsRecord(m1) && 0 < n <= |m0| && m0[n - 1] != '\n'
    ensures Run(Job(initial, [m0, m1]), Start(Job(initial, [m0, m1])), steps) == Some(s)
    ensures s.holder.None? && s.phases == [Failed(n), Finished] && s.file == initial + m0[..n] + m1
    ensures |Records(s.file)| == |Records(initial + m0[..n])|
  {
    var job := Job(initial, [m0, m1]);
    var torn;
    RecordEndsLine(m1);
    steps, torn := RunsAndFails(job, Start(job), [], Start(job), 0, n);
    steps, s := RunsAndFinishes(job, Start(job), steps, torn, 1);
    assert !AtLineStart(initial + m0[..n]);
    GluedRecordLost(initial + m0[..n], m1);
  }

  lemma TornAfterGlues(initial: string, m0: string, m1: string, n: nat)
    requires IsRecord(m0) && IsRecord(m1) && AtLineStart(initial) && 1 <= n <= 4
    ensures n <= |m1| && Records(initial + m0 + m1[..n]) == Records(initial) + [m0 + m1[..n]]
  {
    RecordEndsLine(m0);
    RecordEndsLine(m1);
    AppendRecovered(initial, m0);
    PrefixBeginsRecord(m1, n);
    TornTail(initial + m0, m1[..n]);
  }

  /** For any two messages: the first is whole, the second fails within its separator, and no record equals the first. */
  lemma TornAfterLoses(initial: string, m0: string, m1: string, n: nat) returns (steps: seq<Step>, s: Spool)
    requires IsRecord(m0) && IsRecord(m1) && AtLineStart(initial) && 1 <= n <= 4
    ensures Run(Job(initial, [m0, m1]), Start(Job(initial, [m0, m1])), steps) == Some(s)
    ensures s.holder.None? && s.phases == [Finished, Failed(n)] && n <= |m1| && s.file == initial + m0 + m1[..n]
    ensures Records(s.file) == Records(initial) + [m0 + m1[..n]]
  {
    TornAfterGlues(initial, m0, m1, n);
    steps, s := WholeThenTorn(initial, m0, m1, n);
  }

  lemma WholeThenTorn(initial: string, m0: string, m1: string, n: nat) returns (steps: seq<Step>, s: Spool)
    requires m0 != "" && 0 < n <= |m1|
    ensures Run(Job(initial, [m0, m1]), Start(Job(initial, [m0, m1])), steps) == Some(s)
    ensures s.holder.None? && s.phases == [Finished, Failed(n)] && s.file == initial + m0 + m1[..n]
  {
    var job := Job(initial, [m0, m1]);
    var whole;
    steps, whole := RunsAndFinishes(job, Start(job), [], Start(job), 0);
    steps, s := RunsAndFails(job, Start(job), steps, whole, 1, n);
  }

  // ---------------------------------------------------------------------
  // One appender, as it runs
  // ---------------------------------------------------------------------

  /** The state once appender p, which locked s0, has written the first `written` bytes. */
  ghost predicate Wrote(job: Job, s0: Spool, s: Spool, p: nat, written: nat)
    requires p < |s0.phases| == |job.messages|
  {
    && written <= |job.messages[p]|
    && s.phases == s0.phases[p := Writing(written)]
    && s.order == s0.order + [p]
    && s.file == s0.file + job.messages[p][..written]
  }

  lemma WritesMore(job: Job, s0: Spool, s: Spool, p: nat, done: nat, n: nat)
    requires p < |s0.phases| == |job.messages| && Wrote(job, s0, s, p, done)
    requires 0 < n && done + n <= |job.messages[p]|
    ensures Enabled(job, s, Append(p, n))
    ensures Wrote(job, s0, Next(job, s, Append(p, n)), p, done + n)
  {
    var m := job.messages[p];
    assert m[..done + n] == m[..done] + m[done..done + n];
    Regroup2(s0.file, m[..done], m[done..done + n]);
  }

  function Total(writes: seq<nat>): nat {
    if writes == [] then 0 else Total(writes[..|writes| - 1]) + writes[|writes| - 1]
  }

  /** Write number z fails, and those before it, none failing, have not put out everything. */
  predicate StopsAt(full: nat, writes: seq<nat>, z: nat) {
    z < |writes| && writes[z] == 0 && Total(writes[..z]) < full && forall i :: 0 <= i < z ==> writes[i] > 0
  }

  /** The first n writes put out `done` of `full` bytes and none has failed. */
  predicate Progressed(full: nat, writes: seq<nat>, n: nat, done: nat) {
    && done <= full
    && (forall i :: 0 <= i < n && i < |writes| ==> writes[i] > 0)
    && (if n <= |writes| then done == Min(full, Total(writes[..n])) else done == full)
  }

  lemma {:induction false} TotalGrows(writes: seq<nat>, m: nat, n: nat)
    requires m <= n <= |writes|
    ensures Total(writes[..m]) <= Total(writes[..n])
  {
    if m < n {
      assert writes[..n][..n - 1] == writes[..n - 1];
      TotalGrows(writes, m, n - 1);
    }
  }

  lemma OneMoreWrite(full: nat, writes: seq<nat>, n: nat, done: nat, k: nat)
    requires Progressed(full, writes, n, done) && done < full
    requires k == if n < |writes| then Min(writes[n], full - done) else full - done
    ensures n <= |writes|
    ensures k > 0 ==> Progressed(full, writes, n + 1, done + k)
    ensures k == 0 ==> StopsAt(full, writes, n) && done == Total(writes[..n])
  {
    if n < |writes| {
      assert writes[..n + 1][..n] == writes[..n];
    }
  }

  /** Only the first failing write can stop an appender. */
  lemma StopsOnce(full: nat, writes: seq<nat>, z: nat)
    requires StopsAt(full, writes, z)
    ensures forall y: nat :: StopsAt(full, writes, y) ==> y == z
  {
  }

  /** Once everything is out no write stops the appender short of it. */
  lemma OutIsNotStopped(full: nat, writes: seq<nat>, n: nat, z: nat)
    requires Progressed(full, writes, n, full)
    ensures !StopsAt(full, writes, z)
  {
    if z < |writes| && n <= z {
      TotalGrows(writes, n, z);
    }
  }

  class SpoolFile {
    const job: Job
    var s: Spool

    constructor (job: Job)
      ensures this.job == job && s == Start(job)
    {
      this.job, s := job, Start(job);
    }

    /** Take one step of a schedule that began in s0. */
    method Do(step: Step, ghost s0: Spool, ghost steps: seq<Step>) returns (ghost taken: seq<Step>)
      requires Enabled(job, s, step) && Run(job, s0, steps) == Some(s)
      modifies this
      ensures s == Next(job, old(s), step)
      ensures taken == steps + [step] && Run(job, s0, taken) == Some(s)
    {
      s := Next(job, s, step);
      taken := steps + [step];
      assert taken[..|steps|] == steps;
    }

    /** write_all: `writes[i]` is how much the i-th write takes, 0 an error; past the script a write takes everything. */
    method WriteAll(p: nat, writes: seq<nat>, ghost s0: Spool, ghost steps: seq<Step>)
      returns (ok: bool, ghost taken: seq<Step>, ghost written: nat)
      requires p < |s0.phases| == |job.messages|
      requires Wrote(job, s0, s, p, 0) && Run(job, s0, steps) == Some(s)
      modifies this
      ensures Wrote(job, s0, s, p, written) && Run(job, s0, taken) == Some(s)
      ensures ok <==> written == |job.messages[p]|
      ensures ok <==> forall z: nat :: !StopsAt(|job.messages[p]|, writes, z)
      ensures forall z: nat :: StopsAt(|job.messages[p]|, writes, z) ==> written == Total(writes[..z])
    {
      var m := job.messages[p];
      var done, call := 0, 0;
      taken := steps;
      while done < |m|
        invariant Wrote(job, s0, s, p, done) && Run(job, s0, taken) == Some(s)
        invariant Progressed(|m|, writes, call, done)
        decreases |m| - done
      {
        var n := if call < |writes| then Min(writes[call], |m| - done) else |m| - done;
        OneMoreWrite(|m|, writes, call, done, n);
        if n == 0 {
          StopsOnce(|m|, writes, call);
          return false, taken, done;
        }
        WritesMore(job, s0, s, p, done, n);
        taken := Do(Append(p, n), s0, taken);
        done, call := done + n, call + 1;
      }
      forall z: nat
        ensures !StopsAt(|m|, writes, z)
      {
        OutIsNotStopped(|m|, writes, call, z);
      }
      ok, written := true, done;
    }

    /**
     * Lock, write everything in as many partial writes as it takes, sync, unlock. On an error the
     * guard is dropped where it stands. The steps taken form a legal schedule. It succeeds exactly when
     * the sync does and no write fails before everything is out; otherwise what is out is the total of
     * the writes before the failing one, or everything where only the sync failed.
     */
    method WriteWithLock(p: nat, writes: seq<nat>, syncs: bool)
      returns (ok: bool, ghost steps: seq<Step>, ghost written: nat)
      requires Enabled(job, s, Acquire(p))
      modifies this
      ensures Run(job, old(s), steps) == Some(s)
      ensures s.holder.None? && s.order == old(s.order) + [p]
      ensures s.phases == old(s.phases)[p := if ok then Finished else Failed(written)]
      ensures written <= |job.messages[p]| && s.file == old(s.file) + job.messages[p][..written]
      ensures ok <==> syncs && forall z: nat :: !StopsAt(|job.messages[p]|, writes, z)
      ensures forall z: nat :: StopsAt(|job.messages[p]|, writes, z) ==> written == Total(writes[..z]) < |job.messages[p]|
      ensures (forall z: nat :: !StopsAt(|job.messages[p]|, writes, z)) ==> written == |job.messages[p]|
    {
      ghost var s0 := s;
      assert s0.file + job.messages[p][..0] == s0.file;
      steps := Do(Acquire(p), s0, []);
      ok, steps, written := WriteAll(p, writes, s0, steps);
      if !ok || !syncs {
        steps := Do(Fail(p), s0, steps);
        ok := false;
      } else {
        steps := Do(Sync(p), s0, steps);
        steps := Do(Release(p), s0, steps);
      }
    }
  }
}
