/** The module's global data and the functions that update it in place, each tied to the state machine's own step. */
module Regulators {
  import opened Units
  import opened Controller
  import opened CoreInfos
  import opened Regulation
  import opened Atomicity

  /** How a write to the switch returns: the byte count, or an error. */
  datatype WriteResult = Written | Invalid

  /** What module initialization puts into the core table. */
  function FreshCores(initialBw: seq<nat>, maxBw: seq<nat>, t: nat): (cs: seq<Core>)
    requires |initialBw| == |maxBw| && RegulationTime(t)
    ensures |cs| == |initialBw|
    ensures forall i: nat | i < |cs| :: cs[i] == FreshCore(initialBw[i], maxBw[i], t)
  {
    seq(|initialBw|, i requires 0 <= i < |initialBw| => FreshCore(initialBw[i], maxBw[i], t))
  }

  class Regulator {
    /** One record per cpu; entry 0 belongs to the master's cpu and is not used. */
    const cinfo: seq<CoreInfo>
    const regulationTimeMs: nat
    var poolBwMb: nat
    var masterState: MasterState
    var enableReg: bool

    ghost predicate Distinct()
    {
      forall i: nat, j: nat | i < j < |cinfo| :: cinfo[i].Repr() !! cinfo[j].Repr()
    }

    ghost predicate Valid()
      reads this, cinfo
    {
      && |cinfo| == MAX_NO_CPUS + 1 && RegulationTime(regulationTimeMs)
      && Distinct()
      && forall i: nat | i < |cinfo| :: cinfo[i].Valid()
    }

    ghost function Cores(): (cs: seq<Core>)
      requires Valid()
      reads this, cinfo, Footprint()
      ensures |cs| == |cinfo| && forall i: nat | i < |cs| :: cs[i] == cinfo[i].State()
    {
      seq(|cinfo|, (i: nat) requires i < |cinfo| && Valid() reads this, cinfo, Footprint() => cinfo[i].State())
    }

    ghost function Footprint(): set<object>
    {
      set i: nat, o: object | i < |cinfo| && o in cinfo[i].Repr() :: o
    }

    ghost function State(): Plant
      requires Valid()
      reads this, cinfo, Footprint()
    {
      PlantRecord(Cores(), poolBwMb, masterState, enableReg)
    }

    /** Module initialization: a fresh record for every cpu, and a pool that may be prefilled. */
    constructor (initialBw: seq<nat>, maxBw: seq<nat>, pool: nat, timeMs: nat)
      requires |initialBw| == |maxBw| == MAX_NO_CPUS + 1 && RegulationTime(timeMs)
      ensures Valid() && regulationTimeMs == timeMs
      ensures Cores() == FreshCores(initialBw, maxBw, timeMs)
      ensures State().pool == pool
      ensures forall online: set<nat> :: Boot(SysRecord(State(), Startup(1), Idle, online, timeMs))
    {
      hide FreshCores, FreshCore;
      var cores := Regulator.SetupCores(initialBw, maxBw, timeMs);
      cinfo := cores;
      regulationTimeMs, poolBwMb, masterState, enableReg := timeMs, pool, Initial, false;
    }

    /** One fresh record for every cpu. */
    static method SetupCores(initialBw: seq<nat>, maxBw: seq<nat>, t: nat) returns (cores: seq<CoreInfo>)
      requires |initialBw| == |maxBw| && RegulationTime(t)
      ensures |cores| == |initialBw|
      ensures forall i: nat, j: nat | i < j < |cores| :: cores[i].Repr() !! cores[j].Repr()
      ensures forall i: nat | i < |cores| ::
                cores[i].Valid() && fresh(cores[i].Repr()) && cores[i].State() == FreshCores(initialBw, maxBw, t)[i]
    {
      hide FreshCore;
      cores := [];
      while |cores| < |initialBw|
        invariant |cores| <= |initialBw|
        invariant forall i: nat, j: nat | i < j < |cores| :: cores[i].Repr() !! cores[j].Repr()
        invariant forall i: nat | i < |cores| ::
                    cores[i].Valid() && fresh(cores[i].Repr()) && cores[i].State() == FreshCores(initialBw, maxBw, t)[i]
      {
        var core := new CoreInfo(initialBw[|cores|], maxBw[|cores|], t);
        cores := cores + [core];
      }
    }

    /** The read overflow handler: reclaim from the pool, or throttle. */
    method HandleReadOverflow(cpu: nat)
      requires Valid() && cpu <= MAX_NO_CPUS
      modifies `poolBwMb, cinfo
      ensures Valid()
      ensures State() == if cpu == 0 then old(State()) else OverflowOn(old(State()), cpu, regulationTimeMs)
    {
      hide CoreStep;
      if cpu == 0 {
        return;
      }
      assert Cores()[cpu] == cinfo[cpu].State();
      var readBwUsed := cinfo[cpu].readCountUsed;
      if readBwUsed < poolBwMb {
        var reclaimBudget := readBwUsed / 2;
        poolBwMb := poolBwMb - reclaimBudget;
        SetPeriodLeft(cpu, reclaimBudget);
      } else {
        ActivateThrottling(cpu);
      }
    }

    /** Writes the read counter's remaining budget. */
    method SetPeriodLeft(cpu: nat, budget: nat)
      requires Valid() && Regulated(cpu)
      modifies cinfo
      ensures Valid() && State() == Touch(old(State()), cpu, Grant(budget), regulationTimeMs)
    {
      hide Pass;
      cinfo[cpu].readPeriodLeft := budget;
      SameElsewhere(cpu, Cores(), old(Cores()));
    }

    method ActivateThrottling(cpu: nat)
      requires Valid() && Regulated(cpu)
      modifies cinfo
      ensures Valid() && State() == Touch(old(State()), cpu, Flag(true), regulationTimeMs)
    {
      hide Pass;
      cinfo[cpu].throttlerTask := true;
      SameElsewhere(cpu, Cores(), old(Cores()));
    }

    /** A sequence of cores that agrees with another everywhere but at one index is an update of it. */
    lemma SameElsewhere(cpu: nat, now: seq<Core>, before: seq<Core>)
      requires cpu < |now| == |before| && forall i: nat | i < |now| && i != cpu :: now[i] == before[i]
      ensures now == before[cpu := now[cpu]]
    {
    }

    /** Sets one core's throttle flag. */
    method Throttle(cpu: nat)
      requires Valid() && Regulated(cpu)
      modifies cinfo
      ensures Valid() && State() == Touch(old(State()), cpu, Flag(true), regulationTimeMs)
    {
      cinfo[cpu].Throttle();
      SameElsewhere(cpu, Cores(), old(Cores()));
    }

    method Unthrottle(cpu: nat)
      requires Valid() && Regulated(cpu)
      modifies cinfo
      ensures Valid() && State() == Touch(old(State()), cpu, Flag(false), regulationTimeMs)
    {
      cinfo[cpu].Unthrottle();
      SameElsewhere(cpu, Cores(), old(Cores()));
    }

    method StartRegulation(cpu: nat)
      requires Valid() && Regulated(cpu)
      modifies cinfo
      ensures Valid() && State() == Touch(old(State()), cpu, Begin, regulationTimeMs)
    {
      cinfo[cpu].StartRegulation();
      SameElsewhere(cpu, Cores(), old(Cores()));
    }

    method StopRegulation(cpu: nat)
      requires Valid() && Regulated(cpu)
      modifies cinfo
      ensures Valid() && State() == Touch(old(State()), cpu, End, regulationTimeMs)
    {
      cinfo[cpu].StopRegulation();
      SameElsewhere(cpu, Cores(), old(Cores()));
    }

    /** The master's pass over one core's record. */
    method ControlCore(cpu: nat, readEvents: nat, writeEvents: nat) returns (verdict: Verdict, credit: nat)
      requires Valid() && Regulated(cpu)
      requires PassFits(State().cores[cpu], readEvents, writeEvents, regulationTimeMs)
      modifies Footprint()
      ensures Valid()
      ensures Cores() == old(Cores())[cpu := CoreStep(old(Cores())[cpu], Control(readEvents, writeEvents),
                                                      regulationTimeMs)]
      ensures verdict == Pass(old(Cores())[cpu], readEvents, writeEvents, regulationTimeMs).1
      ensures credit == Credit(old(Cores())[cpu], verdict)
    {
      hide Pass, PassFits, Credit;
      verdict, credit := cinfo[cpu].ControlStep(readEvents, writeEvents, regulationTimeMs);
      SameElsewhere(cpu, Cores(), old(Cores()));
    }

    /** The master's pass over one core, with its credit to the pool. */
    method ControlPass(cpu: nat, readEvents: nat, writeEvents: nat) returns (verdict: Verdict)
      requires Valid() && Regulated(cpu)
      requires PassFits(State().cores[cpu], readEvents, writeEvents, regulationTimeMs)
      modifies `poolBwMb, Footprint()
      ensures Valid() && State() == ControlOn(old(State()), cpu, readEvents, writeEvents, regulationTimeMs)
    {
      hide Pass, PassFits, Credit, CoreStep, Cores;
      var credit;
      verdict, credit := ControlCore(cpu, readEvents, writeEvents);
      CreditPool(credit);
    }

    method CreditPool(credit: nat)
      requires Valid()
      modifies `poolBwMb
      ensures Valid() && Cores() == old(Cores()) && poolBwMb == old(poolBwMb) + credit
    {
      poolBwMb := poolBwMb + credit;
    }

    /** Throttles all regulated cores at startup. */
    method StartupPass()
      requires Valid()
      modifies cinfo
      ensures Valid() && State() == TouchAll(old(State()), Flag(true), MAX_NO_CPUS, regulationTimeMs)
    {
      hide Touch;
      var cpu := 1;
      while cpu <= MAX_NO_CPUS
        invariant 1 <= cpu <= MAX_NO_CPUS + 1 && Valid()
        invariant State() == TouchAll(old(State()), Flag(true), cpu - 1, regulationTimeMs)
      {
        Throttle(cpu);
        cpu := cpu + 1;
      }
    }

    /** Releases all regulated cores when regulation begins. */
    method ReleasePass()
      requires Valid()
      modifies cinfo
      ensures Valid() && State() == TouchAll(old(State()), Flag(false), MAX_NO_CPUS, regulationTimeMs)
    {
      hide Touch;
      var cpu := 1;
      while cpu <= MAX_NO_CPUS
        invariant 1 <= cpu <= MAX_NO_CPUS + 1 && Valid()
        invariant State() == TouchAll(old(State()), Flag(false), cpu - 1, regulationTimeMs)
      {
        Unthrottle(cpu);
        cpu := cpu + 1;
      }
    }

    /** The master's visit to one cpu during a sweep. */
    method VisitCore(cpu: nat, online: set<nat>, readEvents: nat, writeEvents: nat)
      requires Valid() && Regulated(cpu)
      requires cpu in online ==> PassFits(State().cores[cpu], readEvents, writeEvents, regulationTimeMs)
      modifies `poolBwMb, Footprint()
      ensures Valid()
      ensures State() == if cpu in online then ControlOn(old(State()), cpu, readEvents, writeEvents, regulationTimeMs)
                         else old(State())
    {
      hide ControlOn, PassFits;
      if cpu in online {
        var _ := ControlPass(cpu, readEvents, writeEvents);
      }
    }

    /** One sweep of the master over the online cores. */
    method SweepCores(online: set<nat>, readCounts: seq<nat>, writeCounts: seq<nat>)
      requires Valid() && |readCounts| == |writeCounts| == MAX_NO_CPUS + 1
      requires forall cpu: nat | Regulated(cpu) && cpu in online ::
                 PassFits(State().cores[cpu], readCounts[cpu], writeCounts[cpu], regulationTimeMs)
      modifies `poolBwMb, Footprint()
      ensures Valid()
      ensures State() == SweepTo(old(State()), online, readCounts, writeCounts, MAX_NO_CPUS, regulationTimeMs)
    {
      ghost var p := State();
      assert SweepTo(p, online, readCounts, writeCounts, 0, regulationTimeMs) == p;
      hide ControlOn, PassFits, SweepTo;
      var cpu := 1;
      while cpu <= MAX_NO_CPUS
        invariant 1 <= cpu <= MAX_NO_CPUS + 1 && Valid()
        invariant State() == SweepTo(p, online, readCounts, writeCounts, cpu - 1, regulationTimeMs)
      {
        SweepExtends(p, online, readCounts, writeCounts, cpu, regulationTimeMs);
        VisitCore(cpu, online, readCounts[cpu], writeCounts[cpu]);
        cpu := cpu + 1;
      }
    }

    method MasterStartRegulation()
      requires Valid()
      modifies `masterState
      ensures Valid() && State() == old(State()).(master := Running)
    {
      masterState := Running;
    }

    method MasterStopRegulation()
      requires Valid()
      modifies `masterState
      ensures Valid() && State() == old(State()).(master := Initial)
    {
      masterState := Initial;
    }

    method StartAllRegulation()
      requires Valid()
      modifies `masterState, cinfo
      ensures Valid()
      ensures State() == TouchAll(old(State()).(master := Running), Begin, MAX_NO_CPUS, regulationTimeMs)
    {
      hide Touch;
      MasterStartRegulation();
      var cpu := 1;
      while cpu <= MAX_NO_CPUS
        invariant 1 <= cpu <= MAX_NO_CPUS + 1 && Valid()
        invariant State() == TouchAll(old(State()).(master := Running), Begin, cpu - 1, regulationTimeMs)
      {
        StartRegulation(cpu);
        cpu := cpu + 1;
      }
    }

    method StopAllRegulation()
      requires Valid()
      modifies `masterState, cinfo
      ensures Valid()
      ensures State() == TouchAll(old(State()).(master := Initial), End, MAX_NO_CPUS, regulationTimeMs)
    {
      hide Touch;
      MasterStopRegulation();
      var cpu := 1;
      while cpu <= MAX_NO_CPUS
        invariant 1 <= cpu <= MAX_NO_CPUS + 1 && Valid()
        invariant State() == TouchAll(old(State()).(master := Initial), End, cpu - 1, regulationTimeMs)
      {
        StopRegulation(cpu);
        cpu := cpu + 1;
      }
    }

    /** A write to the switch: refused unless it is 0 or 1, ignored if the switch has that value, carried out
        otherwise. */
    method EnableRegWrite(input: Input) returns (result: WriteResult)
      requires Valid()
      modifies `enableReg, `masterState, cinfo
      ensures Valid()
      ensures result == Invalid <==> input.Malformed? || input.value > 1
      ensures State() == WriteOutcome(old(State()), input, regulationTimeMs)
    {
      hide TouchAll;
      if input.Malformed? || input.value > 1 {
        return Invalid;
      }
      result := Written;
      if enableReg == (input.value == 1) {
        return;
      }
      enableReg := input.value == 1;
      assert State() == old(State()).(enabled := input.value == 1);
      if input.value == 1 {
        StartAllRegulation();
      } else {
        StopAllRegulation();
      }
    }
  }
}
