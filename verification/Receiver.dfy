/** The receive loop's class: its two halves, proved to be the steps of ReceiverModel. */
module Receiver {
  import opened Common
  import opened PacketHeader
  import opened VidRender
  import opened L = ReceiverModel
  import Reassembly

  class TRecv {
    const reassembler: Reassembly.TReassembly
    const recvBuffer: array<u8>
    var lastReAsmScanTime: TimePoint
    var noMemoryCount: nat
    var phase: Phase
    ghost var clock: TimePoint

    ghost function Model(): State
      reads this, reassembler, reassembler.renderer, reassembler.renderer.framePool,
            reassembler.renderer.framePool.poolData, reassembler.rFrames
    {
      State(reassembler.Model(), lastReAsmScanTime, noMemoryCount, clock, phase)
    }

    ghost predicate Valid()
      reads this, reassembler, reassembler.renderer, reassembler.renderer.framePool,
            reassembler.renderer.framePool.poolData, reassembler.rFrames
    {
      && reassembler.Valid()
      && recvBuffer.Length == MTU_LEN && recvBuffer !in reassembler.renderer.framePool.poolData
    }

    constructor (reassembler: Reassembly.TReassembly, now: TimePoint)
      requires reassembler.Valid()
      ensures Valid() && fresh(recvBuffer) && this.reassembler == reassembler
      ensures Model() == State(reassembler.Model(), now, 0, now, Top)
    {
      this.reassembler := reassembler;
      recvBuffer := new u8[MTU_LEN](_ => 0);
      lastReAsmScanTime, noMemoryCount, phase, clock := now, 0, Top, now;
    }

    /** The start of a turn: scan the slots if the last scan is long enough ago. */
    method BeginTurn(now: TimePoint, scanNow: TimePoint, envs: seq<PushEnv>)
      requires Valid() && phase.Top? && clock <= now <= scanNow && |envs| == 5
      modifies this, reassembler, reassembler.rFrames, reassembler.renderer, reassembler.renderer.framePool
      ensures Valid() && Model() == Step(old(Model()), Turn(now, scanNow, envs))
    {
      hide Run.Step, I.Inv;
      if now - lastReAsmScanTime > SCAN_PERIOD {
        reassembler.ReAsmSlotScan(scanNow, envs);
        lastReAsmScanTime, clock := now, scanNow;
      } else {
        clock := now;
      }
      phase := Receiving;
    }

    // A datagram in the buffer goes to the reassembler.
    method PassOn(bytes: seq<u8>, now: TimePoint, pick: nat, env: PushEnv)
      requires Valid() && Run.Enabled(reassembler.Model(), Run.Recv(bytes, now, pick, env))
      modifies recvBuffer, reassembler, reassembler.rFrames, reassembler.renderer,
               reassembler.renderer.framePool, reassembler.renderer.framePool.poolData
      ensures Valid()
      ensures Model() == old(Model()).(r := Run.Step(old(reassembler.Model()), Run.Recv(bytes, now, pick, env)))
    {
      assert |bytes| <= MTU_LEN;
      hide Run.Step, Run.Enabled, I.Inv;
      forall i | 0 <= i < |bytes| {
        recvBuffer[i] := bytes[i];
      }
      assert recvBuffer[..|bytes|] == bytes;
      reassembler.OnPacketRecv(recvBuffer, |bytes|, now, pick, env);
    }

    /** The rest of it: what recv() returned, with the datagram it has put into the buffer. */
    method OnReceived(result: RecvResult, now: TimePoint, pick: nat, env: PushEnv)
      requires Valid() && L.Enabled(Model(), Receive(result, now, pick, env))
      modifies this, recvBuffer, reassembler, reassembler.rFrames, reassembler.renderer,
               reassembler.renderer.framePool, reassembler.renderer.framePool.poolData
      ensures Valid() && Model() == Step(old(Model()), Receive(result, now, pick, env))
    {
      hide Run.Step, Run.Enabled, I.Inv, Reassembly.TReassembly.Valid;
      clock := now;
      phase := Top;
      match result {
        case Packet(bytes) =>
          noMemoryCount := 0;
          PassOn(bytes, now, pick, env);
        case Empty => noMemoryCount := 0;
        case TimedOut =>
        case NoMemory =>
          noMemoryCount := noMemoryCount + 1;
          if noMemoryCount > NO_MEMORY_LIMIT {
            phase := Stopped;
          }
        case Interrupted =>
        case Unreachable =>
        case Fatal => phase := Stopped;
      }
    }
  }
}
