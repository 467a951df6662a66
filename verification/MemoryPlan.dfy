/** The compiler's memory plan against the buffer pool of a running pipeline. */
module MemoryPlan {
  import opened Arithmetic
  import BufferPool
  import PoolRuns
  import Compiler
  import CompilerResults

  /** The memory the pool reports to the metrics at the end of a run; its
      buffers hold at least one byte. */
  function WatermarkBytes(watermark: nat, bufferSize: nat): nat {
    CompilerResults.Product(watermark, BufferPool.Max(bufferSize, 1))
  }

  /** A pool preallocated for a compiled pipeline reports no more memory than
      the plan has counted for that pipeline exactly as long as the buffers in
      use at once have not outnumbered the planned ones.  A plan for buffers of
      size zero counts nothing, and is exceeded by any buffer at all. */
  lemma WithinPlanExactly(p: Compiler.CompiledPipeline, start: PoolRuns.World, ops: seq<PoolRuns.Op>)
    requires PoolRuns.Initial(start, p.bufferSize)
    requires forall op :: op in ops ==> !op.Preallocate?
    requires PoolRuns.Run(PoolRuns.Step(start, PoolRuns.Preallocate(p.bufferCount)).state, ops).Next?
    ensures var w := PoolRuns.Step(start, PoolRuns.Preallocate(p.bufferCount)).state;
      WatermarkBytes(PoolRuns.Run(w, ops).state.pool.highWatermark, p.bufferSize) <= CompilerResults.TruePoolOf(p)
      <==> if p.bufferSize == 0 then p.bufferCount == 0 && PoolRuns.Peak(w, ops) == 0
           else PoolRuns.Peak(w, ops) <= p.bufferCount
  {
    PoolRuns.WatermarkIsPeak(p.bufferSize, start, p.bufferCount, ops);
    var w := PoolRuns.Step(start, PoolRuns.Preallocate(p.bufferCount)).state;
    var watermark := PoolRuns.Run(w, ops).state.pool.highWatermark;
    if p.bufferSize == 0 {
      NothingPlanned(watermark, p.bufferCount);
    } else {
      SameProduct(watermark, p.bufferCount, p.bufferSize);
    }
  }

  lemma NothingPlanned(watermark: nat, count: nat)
    ensures CompilerResults.Product(watermark, 1) <= CompilerResults.Product(0, count) <==> watermark == 0
  {
  }

  lemma SameProduct(watermark: nat, count: nat, size: nat)
    requires size >= 1
    ensures CompilerResults.Product(watermark, size) <= CompilerResults.Product(size, count) <==> watermark <= count
  {
    assert CompilerResults.Product(size, count) == CompilerResults.Product(count, size);
    if watermark <= count {
      MulMono(watermark, count, size, size);
    } else {
      StrictMul(count, watermark, size);
    }
  }
}
