/** Resource vectors and dominant shares (benchmarks/simulator/model.py, baselines.py). */
module Resources {

  datatype ResourceVector = ResourceVector(cpu: nat, memory: nat, gpu: nat) {

    function Add(other: ResourceVector): ResourceVector {
      ResourceVector(cpu + other.cpu, memory + other.memory, gpu + other.gpu)
    }

    predicate FitsWithin(capacity: ResourceVector) {
      cpu <= capacity.cpu && memory <= capacity.memory && gpu <= capacity.gpu
    }

    /** The source raises on underflow; every caller here proves the guard. */
    function Subtract(other: ResourceVector): (r: ResourceVector)
      requires other.FitsWithin(this)
      ensures r.Add(other) == this
    {
      ResourceVector(cpu - other.cpu, memory - other.memory, gpu - other.gpu)
    }
  }

  const ZERO := ResourceVector(0, 0, 0)

  lemma AddZero(v: ResourceVector)
    ensures v.Add(ZERO) == v
  {
    match v
    case ResourceVector(cpu, memory, gpu) =>
  }

  function MaxReal(x: real, y: real): real {
    if x < y then y else x
  }

  /** One component's share; an absent resource never dominates. */
  function Share(used: nat, available: nat): (r: real)
    ensures 0.0 <= r
    ensures used <= available ==> r <= 1.0
  {
    if available > 0 then used as real / available as real else 0.0
  }

  /** The largest component share. The source drops components with zero capacity and
      defaults to zero; shares are never negative, so counting them as zero is the same. */
  function DominantShare(resources: ResourceVector, capacity: ResourceVector): (r: real)
    ensures 0.0 <= r
    ensures resources.FitsWithin(capacity) ==> r <= 1.0
  {
    MaxReal(Share(resources.cpu, capacity.cpu),
            MaxReal(Share(resources.memory, capacity.memory), Share(resources.gpu, capacity.gpu)))
  }
}
