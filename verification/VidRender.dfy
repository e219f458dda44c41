/** Handing a finished frame to the video pipeline: who owns the buffer on every exit path. */
module VidRender {
  import opened Common
  import opened FramePool

  /** What the pipeline library answers during one push: every combination can occur. */
  datatype PushEnv = PushEnv(
    pipelineReady: bool, fileSource: bool, levelExceeded: bool, bufferCreated: bool, flowOk: bool)
  {
    predicate Accepts() { pipelineReady && !fileSource && !levelExceeded && bufferCreated && flowOk }
  }

  class TVidRender {
    const framePool: TFramePool
    // Handles owned by buffers the pipeline has accepted and not yet freed.
    var inFlight: seq<FrameData>

    constructor (pool: TFramePool)
      ensures framePool == pool && inFlight == []
    {
      framePool := pool;
      inFlight := [];
    }

    /** `left` is what remains in the caller's temporary: the handle itself on the exits before
        the move to the heap, `Moved` after it. Destroying it is the caller's part. */
    method TryPushFrame(frame: FrameData, env: PushEnv) returns (ok: bool, left: FrameData)
      requires framePool.Valid()
      modifies this, framePool
      ensures framePool.Valid()
      ensures ok <==>
        && frame.FrameData? && frame.idx < 10 && frame.frameLen > 0
        && env.pipelineReady && !env.fileSource && !env.levelExceeded && env.bufferCreated && env.flowOk
      ensures inFlight == old(inFlight) + if ok then [frame] else []
      ensures framePool.freeIdxList + (if left.IsValid() then [left.idx] else [])
           == old(framePool.freeIdxList) + if !ok && frame.IsValid() then [frame.idx] else []
      ensures forall i :: Listed(framePool.freeIdxList, i) + Own(left, i) + Held(inFlight, i)
                       == Listed(old(framePool.freeIdxList), i) + Own(frame, i) + Held(old(inFlight), i)
    {
      if !env.pipelineReady { return false, frame; }
      if env.fileSource { return false, frame; }
      if env.levelExceeded { return false, frame; }

      var frameData;
      frameData, left := frame, Moved;  // new FrameData(std::move(frame))

      if !frameData.IsValid() || frameData.DataLen() == 0 {
        framePool.Destroy(frameData);
        return false, left;
      }

      if env.bufferCreated {
        // The buffer owns the handle from here on; pushing passes the buffer to the source.
        if env.flowOk {
          forall i ensures Held(inFlight + [frameData], i) == Held(inFlight, i) + Own(frameData, i) {
            HeldConcat(inFlight, [frameData], i);
            HeldSingle(frameData, i);
          }
          inFlight := inFlight + [frameData];
          return true, left;
        }
        // A refused buffer is unreferenced by the source, which runs its free callback.
        framePool.Destroy(frameData);
      } else {
        framePool.Destroy(frameData);
      }
      return false, left;
    }

    /** The buffer's free callback, run by the pipeline when it drops its last reference. */
    method Release(k: nat)
      requires framePool.Valid() && k < |inFlight|
      modifies this, framePool
      ensures framePool.Valid()
      ensures inFlight == RemoveAt(old(inFlight), k)
      ensures var h := old(inFlight)[k];
        framePool.freeIdxList == old(framePool.freeIdxList) + if h.IsValid() then [h.idx] else []
      ensures forall i :: Listed(framePool.freeIdxList, i) + Held(inFlight, i)
                       == Listed(old(framePool.freeIdxList), i) + Held(old(inFlight), i)
    {
      forall i {
        HeldRemoveAt(inFlight, k, i);
      }
      framePool.Destroy(inFlight[k]);
      inFlight := RemoveAt(inFlight, k);
    }
  }
}
