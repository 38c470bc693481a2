/**
 The serial thread and the main loop together (mobile.c), as a state machine whose steps
 are one byte or word transfer, or one indivisible piece of the main loop.

 The scratch memory of the serial link and that of the command layer are one union; here
 it is in one view or the other, and a step is only possible on the view it needs.
 */
module Handover {
  import opened Bytes
  import opened Serial
  import opened Reply

  // The union of mobile_data.h:43-46.
  datatype Shared = SerialView(b: Scratch) | CommandView(command: byte, length: byte)

  // Where the main loop is, between two of its pieces.
  datatype Main =
    | Resting
    | Handling                            // found RESPONSE_WAITING, in command_handle
    | Replying(command: byte, length: byte)   // the command has given a packet to send
    | Replied                             // the packet is written, the state not yet set
    | SawModeChange                       // mobile_actions_get asked for a mode change
    | CheckedMode                         // found WAITING again in mobile_actions_process
    | ModeLocked                          // serial disabled to change the mode
    | ModeChanged

  datatype Adapter = Adapter(phase: Phase, mode32: bool, device: byte, unmetered: bool, buffer: seq<byte>,
                             shared: Shared, session: bool, wantMode32: bool, config: byte,
                             packetParsed: bool, enabled: bool, main: Main)

  function LinkOf(a: Adapter): Link
    requires a.shared.SerialView?
  {
    Link(a.phase, a.mode32, a.device, a.unmetered, a.buffer, a.shared.b)
  }

  function WithLink(a: Adapter, l: Link): Adapter {
    a.(phase := l.phase, mode32 := l.mode32, device := l.device, unmetered := l.unmetered, buffer := l.buffer,
       shared := SerialView(l.b))
  }

  datatype Action =
    // serial thread
    | Byte(c: byte) | Word(w: word)
    // mobile_actions_get, when it asks for the mode to be changed, and the change itself
    | SeeModeChange | CheckMode | LockForMode | ChangeMode | UnlockAfterMode
    // MOBILE_ACTION_PROCESS_COMMAND
    | SeeCommand | Parse
    | Process(buffer: seq<byte>, session: bool, wantMode32: bool, reply: Option<(byte, byte)>)
    | Create(stale: Scratch) | FinishReply
    // mobile_reset, between disabling and enabling the serial; mobile_stop leaves it disabled
    | Reset(stale: Scratch, enable: bool)
    // the other uses of serial_disable and serial_enable, and the user's settings
    | Lock | Unlock | Configure(device: byte)

  // The serial side does nothing while a change of mode is pending in WAITING.
  predicate ModePending(a: Adapter) {
    a.phase == Waiting && a.mode32 != a.wantMode32
  }

  function EnvOf(a: Adapter): Env {
    Env(a.session, a.config)
  }

  // Which pieces can run now, as the code's own control flow has it.
  predicate Enabled(a: Adapter, act: Action) {
    match act
    case Byte(_) | Word(_) => a.enabled
    case SeeModeChange => a.main == Resting && ModePending(a)
    case CheckMode => a.main == SawModeChange
    case LockForMode => a.main == CheckedMode
    case ChangeMode => a.main == ModeLocked
    case UnlockAfterMode => a.main == ModeChanged
    case SeeCommand => a.main == Resting
    case Parse => a.main == Handling && !a.packetParsed
    case Process(buffer, _, _, _) => a.main == Handling && a.packetParsed && |buffer| == DATA_SIZE
    case Create(stale) => a.main.Replying? && ScratchOk(stale)
    case FinishReply => a.main == Replied
    case Reset(stale, _) => a.main == Resting && ScratchOk(stale)
    case Lock | Unlock => a.main == Resting
    case Configure(_) => true
  }

  // What every reachable state has.
  predicate Sound(a: Adapter) {
    // the command layer's view, a parsed packet and RESPONSE_WAITING go together
    && (a.shared.CommandView? <==> a.packetParsed)
    && (a.packetParsed ==> a.phase == ResponseWaiting)
    && |a.buffer| == DATA_SIZE
    && (a.shared.SerialView? ==> LinkOk(LinkOf(a)))
    && match a.main
       case Resting => true
       case Handling => a.phase == ResponseWaiting
       case Replying(_, _) => a.phase == ResponseWaiting && a.packetParsed
       case Replied => a.phase == ResponseWaiting && !a.packetParsed
       case SawModeChange | CheckedMode => ModePending(a)
       case ModeLocked => ModePending(a) && !a.enabled
       case ModeChanged => a.phase == Waiting && !a.enabled
  }

  // A transfer by the serial thread (mobile_transfer and mobile_transfer_32bit).  In
  // RESPONSE_WAITING it needs no view of the shared memory.
  function Transfer(a: Adapter, act: Action): (r: Adapter)
    requires Sound(a) && (act.Byte? || act.Word?)
  {
    if ModePending(a) || a.phase == ResponseWaiting then a
    else if act.Byte? then WithLink(a, Step(LinkOf(a), EnvOf(a), act.c).link)
    else WithLink(a, StepWord(LinkOf(a), EnvOf(a), act.w).link)
  }

  // Why `Transfer` needs no link in RESPONSE_WAITING: there the serial machine answers the idle
  // byte and changes nothing, whatever the shared memory holds.
  lemma {:induction false} WaitingNeedsNoView(l: Link, env: Env, c: byte, w: word)
    requires LinkOk(l) && l.phase == ResponseWaiting
    ensures Step(l, env, c) == Output(l, IDLE_BYTE)
    ensures StepWord(l, env, w) == WordOutput(l, Pack([IDLE_BYTE, IDLE_BYTE, IDLE_BYTE, IDLE_BYTE]))
  {
    var ins := Bytes4(env, w);
    WaitingRun(l, ins);
    assert seq(4, _ => IDLE_BYTE) == [IDLE_BYTE, IDLE_BYTE, IDLE_BYTE, IDLE_BYTE];
  }

  lemma {:induction false} WaitingRun(l: Link, ins: seq<Input>)
    requires LinkOk(l) && l.phase == ResponseWaiting
    ensures Run(l, ins) == l && Replies(l, ins) == seq(|ins|, _ => IDLE_BYTE)
    decreases |ins|
  {
    if ins != [] {
      WaitingRun(l, ins[1..]);
    }
  }

  function Next(a: Adapter, act: Action): Adapter
    requires Sound(a) && Enabled(a, act)
  {
    match act
    case Byte(_) | Word(_) => Transfer(a, act)
    case SeeModeChange => a.(main := SawModeChange)
    case CheckMode => a.(main := if a.phase == Waiting then CheckedMode else Resting)
    case LockForMode => a.(enabled := false, main := ModeLocked)
    case ChangeMode => a.(mode32 := a.wantMode32, main := ModeChanged)
    case UnlockAfterMode => a.(enabled := true, main := Resting)
    case SeeCommand => a.(main := if a.phase == ResponseWaiting then Handling else Resting)
    case Parse => a.(shared := CommandView(a.shared.b.header[0], a.shared.b.header[3]), packetParsed := true)
    case Process(buffer, session, wantMode32, reply) =>
      a.(buffer := buffer, session := session, wantMode32 := wantMode32,
         main := if reply.Some? then Replying(reply.value.0, reply.value.1) else Resting)
    case Create(stale) =>
      var l := Created(Link(a.phase, a.mode32, a.device, a.unmetered, a.buffer, stale),
                       a.main.command, a.buffer[..a.main.length], stale);
      a.(shared := SerialView(l.b), buffer := l.buffer, packetParsed := false, main := Replied)
    case FinishReply => a.(phase := ResponseInit, main := Resting)
    case Reset(stale, enable) =>
      a.(session := false, wantMode32 := if a.session then false else a.wantMode32,
         phase := Init, mode32 := false, shared := SerialView(stale), packetParsed := false, enabled := enable)
    case Lock => a.(enabled := false)
    case Unlock => a.(enabled := true)
    case Configure(device) => a.(config := device)
  }

  lemma {:induction false} SoundTransfer(a: Adapter, act: Action)
    requires Sound(a) && (act.Byte? || act.Word?) && a.enabled
    ensures Sound(Transfer(a, act))
  {
    hide Step, StepWord;
    if !ModePending(a) && a.phase != ResponseWaiting {
      var l := if act.Byte? then Step(LinkOf(a), EnvOf(a), act.c).link else StepWord(LinkOf(a), EnvOf(a), act.w).link;
      assert LinkOk(l) && LinkOf(WithLink(a, l)) == l;
    }
  }

  lemma {:induction false} SoundNext(a: Adapter, act: Action)
    requires Sound(a) && Enabled(a, act)
    ensures Sound(Next(a, act))
  {
    hide Step, StepWord;
    match act
    case Byte(_) | Word(_) => SoundTransfer(a, act);
    case _ =>
  }

  // ---------- Runs ----------

  // The adapter as mobile_init and mobile_start leave it.
  predicate Fresh(a: Adapter) {
    && a.phase == Init && !a.mode32 && !a.wantMode32 && !a.session && !a.packetParsed && a.main == Resting
    && |a.buffer| == DATA_SIZE && a.shared.SerialView? && ScratchOk(a.shared.b)
  }

  // The states a run of actions goes through, one more than its actions.
  ghost predicate IsRun(states: seq<Adapter>, acts: seq<Action>) {
    && |states| == |acts| + 1
    && Sound(states[0])
    && forall i | 0 <= i < |acts| ::
         Sound(states[i]) && Enabled(states[i], acts[i]) && states[i + 1] == Next(states[i], acts[i])
  }

  lemma FreshIsSound(a: Adapter)
    requires Fresh(a)
    ensures Sound(a)
  {
  }

  // Every list of actions, taken as far as each is enabled, is a run.
  lemma {:induction false} RunsExist(a: Adapter, acts: seq<Action>) returns (states: seq<Adapter>, n: nat)
    requires Sound(a)
    ensures n <= |acts| && IsRun(states, acts[..n]) && states[0] == a
    ensures n < |acts| ==> !Enabled(states[n], acts[n])
    ensures Fresh(a) ==> IsHistory(states, acts[..n])
    decreases |acts|
  {
    hide Step, StepWord, Sound, Enabled, Next;
    if acts == [] || !Enabled(a, acts[0]) {
      states, n := [a], 0;
    } else {
      SoundNext(a, acts[0]);
      var rest, m := RunsExist(Next(a, acts[0]), acts[1..]);
      states, n := [a] + rest, m + 1;
      assert forall i | 0 <= i < m :: acts[1..][..m][i] == acts[i + 1];
      assert acts[1..][..m] == acts[1..n];
      forall i | 0 <= i < n
        ensures Sound(states[i]) && Enabled(states[i], acts[..n][i]) && states[i + 1] == Next(states[i], acts[..n][i])
      {
        if i > 0 {
          assert acts[1..][..m][i - 1] == acts[..n][i];
        }
      }
    }
  }

  lemma {:induction false} SoundThroughout(states: seq<Adapter>, acts: seq<Action>, i: nat)
    requires IsRun(states, acts) && i <= |acts|
    ensures Sound(states[i])
  {
    if i > 0 {
      SoundNext(states[i - 1], acts[i - 1]);
    }
  }

  /** A history of the adapter: it begins as mobile_init and mobile_start leave it, and every
      piece that follows can run where it does. */
  ghost predicate IsHistory(states: seq<Adapter>, acts: seq<Action>) {
    && |states| == |acts| + 1
    && Fresh(states[0])
    && forall i | 0 <= i < |acts| ::
         Sound(states[i]) ==> Enabled(states[i], acts[i]) && states[i + 1] == Next(states[i], acts[i])
  }

  // Every state of a history is sound.
  lemma {:induction false} HistorySound(states: seq<Adapter>, acts: seq<Action>, i: nat)
    requires IsHistory(states, acts) && i <= |acts|
    ensures Sound(states[i])
  {
    hide Sound, Enabled, Next;
    if i == 0 {
      FreshIsSound(states[0]);
    } else {
      HistorySound(states, acts, i - 1);
      SoundNext(states[i - 1], acts[i - 1]);
    }
  }

  lemma {:induction false} HistoryIsRun(states: seq<Adapter>, acts: seq<Action>)
    requires IsHistory(states, acts)
    ensures IsRun(states, acts)
  {
    hide Sound, Enabled, Next;
    HistorySound(states, acts, 0);
    forall i | 0 <= i < |acts|
      ensures Sound(states[i]) && Enabled(states[i], acts[i]) && states[i + 1] == Next(states[i], acts[i])
    {
      HistorySound(states, acts, i);
    }
  }

  /** The union is never shared.  While the command layer may use it (RESPONSE_WAITING) a
      transfer changes nothing at all; the command layer's own pieces run only there; and a
      parsed packet exists only there. */
  lemma {:induction false} NeverShared(states: seq<Adapter>, acts: seq<Action>, i: nat)
    requires IsHistory(states, acts) && i < |acts|
    ensures (acts[i].Byte? || acts[i].Word?) && states[i].phase == ResponseWaiting ==> states[i + 1] == states[i]
    ensures acts[i].Parse? || acts[i].Process? || acts[i].Create? ==> states[i].phase == ResponseWaiting
    ensures states[i].packetParsed ==> states[i].phase == ResponseWaiting
    ensures acts[i].Byte? || acts[i].Word? ==>
              states[i + 1].packetParsed == states[i].packetParsed
              && (states[i].shared.CommandView? ==> states[i + 1].shared == states[i].shared)
  {
    hide Step, StepWord;
    HistoryIsRun(states, acts);
    SoundThroughout(states, acts, i);
  }

  // A piece that can change the mode: the mode change proper, or a reset.
  lemma {:induction false} StepKeepsMode(l: Link, env: Env, c: byte)
    requires LinkOk(l)
    ensures Step(l, env, c).link.mode32 == l.mode32
  {
  }

  lemma {:induction false} RunKeepsMode(l: Link, ins: seq<Input>)
    requires LinkOk(l)
    ensures Run(l, ins).mode32 == l.mode32
    decreases |ins|
  {
    hide Step;
    if ins != [] {
      StepKeepsMode(l, ins[0].env, ins[0].c);
      RunKeepsMode(Step(l, ins[0].env, ins[0].c).link, ins[1..]);
    }
  }

  lemma {:induction false} OnlyChangeMode(a: Adapter, act: Action)
    requires Sound(a) && Enabled(a, act)
    ensures Next(a, act).mode32 != a.mode32 ==>
              act.Reset? || (act.ChangeMode? && a.phase == Waiting && !a.enabled)
  {
    hide Step, Run;
    if (act.Byte? || act.Word?) && a.shared.SerialView? {
      if act.Byte? {
        StepKeepsMode(LinkOf(a), EnvOf(a), act.c);
      } else {
        RunKeepsMode(LinkOf(a), Bytes4(EnvOf(a), act.w));
      }
    }
  }

  /** Mode stability: from leaving WAITING until returning to it, or a reset, the mode is
      constant, however the two sides interleave. */
  lemma {:induction false} ModeStable(states: seq<Adapter>, acts: seq<Action>, i: nat, j: nat)
    requires IsHistory(states, acts) && i <= j <= |acts|
    requires forall k | i <= k < j :: states[k].phase != Waiting && !acts[k].Reset?
    ensures states[j].mode32 == states[i].mode32
    decreases j
  {
    hide Step, StepWord, Sound, Enabled, Next;
    if i < j {
      ModeStable(states, acts, i, j - 1);
      HistoryIsRun(states, acts);
      OnlyChangeMode(states[j - 1], acts[j - 1]);
    }
  }

  /** Why the check before a mode change still holds when it is acted on: a pending change
      stays pending under any transfers, so the change is never given up half-way. */
  lemma {:induction false} PendingModeWaits(states: seq<Adapter>, acts: seq<Action>, i: nat)
    requires IsHistory(states, acts) && i < |acts|
    ensures states[i].main == SawModeChange && acts[i].CheckMode? ==> states[i + 1].main == CheckedMode
    ensures acts[i].ChangeMode? ==> states[i].phase == Waiting && states[i + 1].mode32 == states[i].wantMode32
                                    && states[i].mode32 != states[i].wantMode32
    ensures (acts[i].Byte? || acts[i].Word?) && ModePending(states[i]) ==> states[i + 1] == states[i]
  {
    hide Step, StepWord;
    HistoryIsRun(states, acts);
    SoundThroughout(states, acts, i);
  }
}
