/** `waitSync()` (src/tinyg-controller.js:273-292): ask for a fresh status report, then
    settle once the machine is idle (not moving, planner queue back to its full size) or
    in error. The promise machinery is replaced by its inputs: how the `{"sr":null}`
    request was answered, the machine state the continuation sees, and the states at
    each later `statusUpdate` event, in order. */
module Sync {
  import opened Common
  import opened Json
  import opened MachineState
  import opened SendQueue

  /** `!this.moving && this.plannerQueueFree === this.plannerQueueSize` */
  predicate Idle(m: Machine) {
    !m.flags.moving && StrictEq(m.plannerQueueFree, m.plannerQueueSize)
  }

  /** A state the status handler acts on: in error, or idle. */
  predicate Decisive(m: Machine) {
    m.flags.error || Idle(m)
  }

  /** The rejection `waitSync` gives for a machine in error. */
  function AlarmOf(m: Machine): Error {
    MachineAlarm(m.flags.errorData)
  }

  datatype SyncOutcome = SyncResolved | SyncRejected(err: Error) | SyncWaiting

  /** How `waitSync` stands, and whether its `statusUpdate` listener is still registered. */
  datatype SyncState = SyncState(outcome: SyncOutcome, listening: bool)

  /** The status handler (lines 281-289) over the updates it hears: an error rejects,
      otherwise an idle machine resolves; either way the handler removes itself. Updates
      after that are not heard. */
  function Listen(updates: seq<Machine>): (r: SyncState)
    ensures r.listening <==> r.outcome == SyncWaiting
    ensures r.outcome == SyncWaiting <==> forall i :: 0 <= i < |updates| ==> !Decisive(updates[i])
    decreases |updates|
  {
    if |updates| == 0 then SyncState(SyncWaiting, true)
    else if updates[0].flags.error then SyncState(SyncRejected(AlarmOf(updates[0])), false)
    else if Idle(updates[0]) then SyncState(SyncResolved, false)
    else
      var r := Listen(updates[1..]);
      assert forall i :: 1 <= i < |updates| ==> updates[i] == updates[1..][i - 1];
      r
  }

  /** `waitSync()`. A rejected status request rejects the sync. Once it is answered, an
      idle machine resolves at once, a machine in error rejects without registering the
      handler, and otherwise the handler listens to the updates that follow. */
  function WaitSync(ack: Settlement, atAck: Machine, updates: seq<Machine>): (r: SyncState)
    ensures ack.Pending? ==> r == SyncState(SyncWaiting, false)
    ensures ack.Rejected? ==> r == SyncState(SyncRejected(ack.err), false)
    ensures r.listening <==> ack.Resolved? && !Decisive(atAck) && r.outcome == SyncWaiting
    ensures ack.Resolved? && Idle(atAck) ==> r.outcome == SyncResolved
    ensures ack.Resolved? && !Idle(atAck) && atAck.flags.error ==> r.outcome == SyncRejected(AlarmOf(atAck))
    ensures ack.Resolved? && !Decisive(atAck) ==> r == Listen(updates)
  {
    match ack
    case Pending => SyncState(SyncWaiting, false)
    case Rejected(e) => SyncState(SyncRejected(e), false)
    case Resolved(_) =>
      if Idle(atAck) then SyncState(SyncResolved, false)
      else if atAck.flags.error then SyncState(SyncRejected(AlarmOf(atAck)), false)
      else Listen(updates)
  }
}

/** When `waitSync` settles, and how its two checks differ. */
module SyncProperties {
  import opened Common
  import opened Json
  import opened MachineState
  import opened SendQueue
  import opened Sync

  /** The handler resolves exactly when the first state it acts on is idle and not in
      error. */
  lemma {:induction false} ListenResolvesIff(updates: seq<Machine>)
    ensures Listen(updates).outcome == SyncResolved <==>
              exists i :: 0 <= i < |updates| && Idle(updates[i]) && !updates[i].flags.error &&
                          QuietBefore(updates, i)
    decreases |updates|
  {
    if |updates| > 0 {
      var u := updates[0];
      if u.flags.error {
        FirstIsDecisive(updates);
      } else if Idle(u) {
        assert Idle(updates[0]) && !updates[0].flags.error;
      } else {
        var rest := updates[1..];
        ListenResolvesIff(rest);
        if Listen(updates).outcome == SyncResolved {
          var k :| 0 <= k < |rest| && Idle(rest[k]) && !rest[k].flags.error &&
                   QuietBefore(rest, k);
          assert updates[k + 1] == rest[k];
          forall j | 0 <= j < k + 1 ensures !Decisive(updates[j]) {
            if j > 0 { assert updates[j] == rest[j - 1]; }
          }
        }
        if exists i :: 0 <= i < |updates| && Idle(updates[i]) && !updates[i].flags.error &&
                       QuietBefore(updates, i) {
          var i :| 0 <= i < |updates| && Idle(updates[i]) && !updates[i].flags.error &&
                   QuietBefore(updates, i);
          assert i > 0;
          assert rest[i - 1] == updates[i];
          forall j | 0 <= j < i - 1 ensures !Decisive(rest[j]) {
            assert rest[j] == updates[j + 1];
          }
        }
      }
    }
  }

  /** Nothing before update `i` is decisive: the handler is still listening when it arrives. */
  predicate QuietBefore(updates: seq<Machine>, i: int)
    requires 0 <= i <= |updates|
  {
    forall j :: 0 <= j < i ==> !Decisive(updates[j])
  }

  /** When the first update is decisive, no later one is reached. */
  lemma FirstIsDecisive(updates: seq<Machine>)
    requires |updates| > 0 && Decisive(updates[0])
    ensures forall i :: 0 < i < |updates| ==> !QuietBefore(updates, i)
  {
    forall i | 0 < i < |updates|
      ensures !QuietBefore(updates, i)
    {
      assert Decisive(updates[0]);
    }
  }

  /** The handler rejects exactly when the first state it acts on is in error, and the
      error carries that state's error data. */
  lemma {:induction false} ListenRejectsIff(updates: seq<Machine>, e: Error)
    ensures Listen(updates).outcome == SyncRejected(e) <==>
              exists i :: 0 <= i < |updates| && updates[i].flags.error && e == AlarmOf(updates[i]) &&
                          QuietBefore(updates, i)
    decreases |updates|
  {
    if |updates| > 0 {
      var u := updates[0];
      if u.flags.error || Idle(u) {
        FirstIsDecisive(updates);
      } else {
        var rest := updates[1..];
        ListenRejectsIff(rest, e);
        if Listen(updates).outcome == SyncRejected(e) {
          var k :| 0 <= k < |rest| && rest[k].flags.error && e == AlarmOf(rest[k]) &&
                   QuietBefore(rest, k);
          assert updates[k + 1] == rest[k];
          forall j | 0 <= j < k + 1 ensures !Decisive(updates[j]) {
            if j > 0 { assert updates[j] == rest[j - 1]; }
          }
        }
        if exists i :: 0 <= i < |updates| && updates[i].flags.error && e == AlarmOf(updates[i]) &&
                       QuietBefore(updates, i) {
          var i :| 0 <= i < |updates| && updates[i].flags.error && e == AlarmOf(updates[i]) &&
                   QuietBefore(updates, i);
          assert i > 0;
          assert rest[i - 1] == updates[i];
          forall j | 0 <= j < i - 1 ensures !Decisive(rest[j]) {
            assert rest[j] == updates[j + 1];
          }
        }
      }
    }
  }

  /** `waitSync` resolves only if the machine was idle at some point it looked: when the
      status request was answered, or at an update before which nothing was decisive. */
  lemma WaitSyncResolvesOnlyWhenIdle(ack: Settlement, atAck: Machine, updates: seq<Machine>)
    requires WaitSync(ack, atAck, updates).outcome == SyncResolved
    ensures ack.Resolved?
    ensures Idle(atAck) || exists i :: 0 <= i < |updates| && Idle(updates[i]) && !updates[i].flags.error
  {
    if !Idle(atAck) {
      ListenResolvesIff(updates);
    }
  }

  /** The two checks are made in opposite orders: a machine that is idle and in error at
      once satisfies `waitSync` when the status request is answered, but makes the
      handler reject. */
  lemma CheckOrderDiffers(m: Machine, later: seq<Machine>)
    requires Idle(m) && m.flags.error
    ensures WaitSync(Resolved(map[]), m, later).outcome == SyncResolved
    ensures Listen([m] + later).outcome == SyncRejected(AlarmOf(m))
  {
    assert ([m] + later)[0] == m;
  }

  /** A machine that never becomes idle or faulty leaves `waitSync` waiting, with its
      handler still registered. */
  lemma BusyMachineKeepsWaiting(atAck: Machine, updates: seq<Machine>, frame: Object)
    requires !Decisive(atAck) && forall i :: 0 <= i < |updates| ==> !Decisive(updates[i])
    ensures WaitSync(Resolved(frame), atAck, updates) == SyncState(SyncWaiting, true)
  {
  }
}
