/** The power total of a round: the global SharedPowerContext, and what each collector's
    setContextInfo does to it (Context.hpp, CPUCollector.hpp, GPUCollector.hpp, NPUCollector.hpp,
    SYSCollector.hpp). */
module SharedPower {
  import opened Options

  datatype Context = Context(cpu: Option<real>, memory: Option<real>, gpu: Option<real>, npu: Option<real>)

  const EMPTY := Context(None, None, None, None)

  function Total(c: Context): real {
    c.cpu.GetOr(0.0) + c.memory.GetOr(0.0) + c.gpu.GetOr(0.0) + c.npu.GetOr(0.0)
  }

  // The collectors, and the power values one of them sampled for one of its labels; only a CPU
  // has a value for its memory.
  datatype Kind = CPU | GPU | NPU | SYS | Cluster
  datatype Reading = Reading(watts: real, memoryWatts: real)

  // The part of a label's power that counts towards the total.
  function Counted(kind: Kind, r: Reading): real {
    match kind
    case CPU => r.watts + r.memoryWatts
    case GPU => r.watts
    case NPU => r.watts
    case _ => 0.0
  }

  function Sum(kind: Kind, readings: seq<Reading>): real {
    if readings == [] then 0.0
    else Sum(kind, readings[..|readings| - 1]) + Counted(kind, readings[|readings| - 1])
  }

  function Watts(readings: seq<Reading>): real {
    if readings == [] then 0.0 else Watts(readings[..|readings| - 1]) + readings[|readings| - 1].watts
  }

  function MemoryWatts(readings: seq<Reading>): real {
    if readings == [] then 0.0 else MemoryWatts(readings[..|readings| - 1]) + readings[|readings| - 1].memoryWatts
  }

  // A field after values that sum up to `sum` were added; without any it stays as it is.
  function Raised(was: Option<real>, readings: seq<Reading>, sum: real): Option<real> {
    if readings == [] then was else Some(was.GetOr(0.0) + sum)
  }

  // The total grows by what counts of each reading, whichever fields it goes to.
  lemma {:induction false} SumOfParts(readings: seq<Reading>)
    ensures Sum(CPU, readings) == Watts(readings) + MemoryWatts(readings)
    ensures Sum(GPU, readings) == Sum(NPU, readings) == Watts(readings)
    ensures Sum(SYS, readings) == Sum(Cluster, readings) == 0.0
  {
    if readings != [] { SumOfParts(readings[..|readings| - 1]); }
  }

  class SharedPowerContext {
    var cpuPower: Option<real>
    var memoryPower: Option<real>
    var gpuPower: Option<real>
    var npuPower: Option<real>

    function View(): Context
      reads this
    {
      Context(cpuPower, memoryPower, gpuPower, npuPower)
    }

    constructor ()
      ensures View() == EMPTY
    {
      cpuPower, memoryPower, gpuPower, npuPower := None, None, None, None;
    }

    method ReSet()
      modifies this
      ensures View() == EMPTY
    {
      cpuPower, memoryPower, gpuPower, npuPower := None, None, None, None;
    }

    // setContextInfo of the collector of the given kind: power collectors add their labels' values
    // to their own fields; SYS gives every label the total so far; the cluster has none.
    method SetContextInfo(kind: Kind, readings: seq<Reading>) returns (totals: seq<real>)
      modifies this
      ensures cpuPower == if kind == CPU then Raised(old(cpuPower), readings, Watts(readings)) else old(cpuPower)
      ensures memoryPower == if kind == CPU then Raised(old(memoryPower), readings, MemoryWatts(readings)) else old(memoryPower)
      ensures gpuPower == if kind == GPU then Raised(old(gpuPower), readings, Watts(readings)) else old(gpuPower)
      ensures npuPower == if kind == NPU then Raised(old(npuPower), readings, Watts(readings)) else old(npuPower)
      ensures Total(View()) == Total(old(View())) + Sum(kind, readings)
      ensures totals == if kind == SYS then seq(|readings|, i => Total(old(View()))) else []
    {
      totals := [];
      for i := 0 to |readings|
        invariant cpuPower == if kind == CPU then Raised(old(cpuPower), readings[..i], Watts(readings[..i])) else old(cpuPower)
        invariant memoryPower ==
                  if kind == CPU then Raised(old(memoryPower), readings[..i], MemoryWatts(readings[..i])) else old(memoryPower)
        invariant gpuPower == if kind == GPU then Raised(old(gpuPower), readings[..i], Watts(readings[..i])) else old(gpuPower)
        invariant npuPower == if kind == NPU then Raised(old(npuPower), readings[..i], Watts(readings[..i])) else old(npuPower)
        invariant totals == if kind == SYS then seq(i, j => Total(old(View()))) else []
      {
        assert readings[..i + 1][..i] == readings[..i];
        match kind {
          case CPU =>
            cpuPower := Some(cpuPower.GetOr(0.0) + readings[i].watts);
            memoryPower := Some(memoryPower.GetOr(0.0) + readings[i].memoryWatts);
          case GPU => gpuPower := Some(gpuPower.GetOr(0.0) + readings[i].watts);
          case NPU => npuPower := Some(npuPower.GetOr(0.0) + readings[i].watts);
          case SYS => totals := totals + [Total(View())];
          case Cluster =>
        }
      }
      assert readings[..|readings|] == readings;
      SumOfParts(readings);
    }
  }
}
