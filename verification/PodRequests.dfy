/**
 * A pod's effective scheduling request: sidecars, the larger of app and init containers, and the
 * overhead, compared with the order-sensitive rule of KEP-753 (sidecar containers).
 */
module PodRequests {

  import opened Optional

  /** Requests in millicores and bytes, where set. */
  datatype Requests = Requests(cpu: Option<nat>, memory: Option<nat>)

  datatype InitContainer = InitContainer(requests: Requests, restartable: bool)

  datatype Spec = Spec(containers: seq<Requests>, initContainers: seq<InitContainer>, overhead: Requests)

  datatype Resource = Cpu | Memory

  datatype Totals = Totals(cpuMilli: nat, memoryBytes: nat)

  function Amount(r: Requests, resource: Resource): nat
  {
    var amount := if resource.Cpu? then r.cpu else r.memory;
    if amount.Some? then amount.value else 0
  }

  function Max(a: nat, b: nat): nat
  {
    if a < b then b else a
  }

  // ---- The display's rule --------------------------------------------------------------------------

  function AppSum(containers: seq<Requests>, resource: Resource): nat
  {
    if containers == [] then 0
    else AppSum(containers[..|containers| - 1], resource) + Amount(containers[|containers| - 1], resource)
  }

  function SidecarSum(inits: seq<InitContainer>, resource: Resource): nat
  {
    if inits == [] then 0
    else
      var last := inits[|inits| - 1];
      SidecarSum(inits[..|inits| - 1], resource) + if last.restartable then Amount(last.requests, resource) else 0
  }

  function InitMax(inits: seq<InitContainer>, resource: Resource): nat
  {
    if inits == [] then 0
    else
      var last := inits[|inits| - 1];
      Max(InitMax(inits[..|inits| - 1], resource), if last.restartable then 0 else Amount(last.requests, resource))
  }

  function Effective(spec: Spec, resource: Resource): nat
  {
    SidecarSum(spec.initContainers, resource)
    + Max(AppSum(spec.containers, resource), InitMax(spec.initContainers, resource))
    + Amount(spec.overhead, resource)
  }

  function Asking(container: Requests, spec: Spec): Spec
  {
    spec.(containers := spec.containers + [container])
  }

  function Starting(container: InitContainer, spec: Spec): Spec
  {
    spec.(initContainers := spec.initContainers + [container])
  }

  lemma NothingAsked(resource: Resource)
    ensures Effective(Spec([], [], Requests(None, None)), resource) == 0
  {
  }

  /**
   * What one more container adds to what is shown: a sidecar its own request, an app container or an
   * init container what takes its kind above the other kind. CPU is read from the CPU requests and
   * memory from the memory requests; a request that is not set adds nothing.
   */
  lemma OneMore(spec: Spec, cpu: nat, memory: nat)
    ensures var app, init := AppSum(spec.containers, Cpu), InitMax(spec.initContainers, Cpu);
            var both := Requests(Some(cpu), Some(memory));
            && Effective(Starting(InitContainer(both, true), spec), Cpu) == Effective(spec, Cpu) + cpu
            && Effective(Starting(InitContainer(both, true), spec), Memory) == Effective(spec, Memory) + memory
            && (app >= init ==> Effective(Asking(both, spec), Cpu) == Effective(spec, Cpu) + cpu)
            && (app < init ==> Effective(Asking(both, spec), Cpu) == Effective(spec, Cpu)
                                                                     + if app + cpu < init then 0 else app + cpu - init)
            && Effective(Starting(InitContainer(both, false), spec), Cpu)
               == Effective(spec, Cpu) + if cpu <= app || cpu <= init then 0 else if app < init then cpu - init
                   else cpu - app
    ensures Effective(Asking(Requests(None, Some(memory)), spec), Cpu) == Effective(spec, Cpu)
    ensures Effective(Asking(Requests(Some(cpu), None), spec), Memory) == Effective(spec, Memory)
    ensures spec.overhead == Requests(None, None) ==>
              var charged := spec.(overhead := Requests(Some(cpu), Some(memory)));
              && Effective(charged, Cpu) == Effective(spec, Cpu) + cpu
              && Effective(charged, Memory) == Effective(spec, Memory) + memory
  {
  }

  class Pod {
    const spec: Spec

    constructor (spec: Spec)
      ensures this.spec == spec
    {
      this.spec := spec;
    }
  }

  /** The totals, remembered per pod object. */
  class RequestCache {
    var totals: map<Pod, Totals>

    ghost predicate Valid()
      reads this
    {
      forall pod | pod in totals :: totals[pod] == Totals(Effective(pod.spec, Cpu), Effective(pod.spec, Memory))
    }

    constructor ()
      ensures Valid()
    {
      totals := map[];
    }

    method PodRequestTotals(pod: Pod) returns (t: Totals)
      requires Valid()
      modifies this
      ensures Valid() && t == Totals(Effective(pod.spec, Cpu), Effective(pod.spec, Memory))
    {
      if pod in totals {
        return totals[pod];
      }
      var appCpu, appMemory := SumApps(pod.spec.containers);
      var sidecarCpu, sidecarMemory, initCpu, initMemory := ScanInits(pod.spec.initContainers);
      t := Totals(sidecarCpu + Max(appCpu, initCpu) + Amount(pod.spec.overhead, Cpu),
                  sidecarMemory + Max(appMemory, initMemory) + Amount(pod.spec.overhead, Memory));
      totals := totals[pod := t];
    }

    method SumApps(containers: seq<Requests>) returns (cpu: nat, memory: nat)
      ensures cpu == AppSum(containers, Cpu) && memory == AppSum(containers, Memory)
    {
      cpu, memory := 0, 0;
      for i := 0 to |containers|
        invariant cpu == AppSum(containers[..i], Cpu) && memory == AppSum(containers[..i], Memory)
      {
        assert containers[..i + 1][..i] == containers[..i];
        cpu := cpu + Amount(containers[i], Cpu);
        memory := memory + Amount(containers[i], Memory);
      }
      assert containers[..|containers|] == containers;
    }

    method ScanInits(inits: seq<InitContainer>)
      returns (sidecarCpu: nat, sidecarMemory: nat, initCpu: nat, initMemory: nat)
      ensures sidecarCpu == SidecarSum(inits, Cpu) && sidecarMemory == SidecarSum(inits, Memory)
      ensures initCpu == InitMax(inits, Cpu) && initMemory == InitMax(inits, Memory)
    {
      sidecarCpu, sidecarMemory, initCpu, initMemory := 0, 0, 0, 0;
      for i := 0 to |inits|
        invariant sidecarCpu == SidecarSum(inits[..i], Cpu) && sidecarMemory == SidecarSum(inits[..i], Memory)
        invariant initCpu == InitMax(inits[..i], Cpu) && initMemory == InitMax(inits[..i], Memory)
      {
        assert inits[..i + 1][..i] == inits[..i];
        var cpu, memory := Amount(inits[i].requests, Cpu), Amount(inits[i].requests, Memory);
        if inits[i].restartable {
          sidecarCpu, sidecarMemory := sidecarCpu + cpu, sidecarMemory + memory;
        } else {
          initCpu, initMemory := Max(initCpu, cpu), Max(initMemory, memory);
        }
      }
      assert inits[..|inits|] == inits;
    }
  }

  // ---- The scheduler's rule ------------------------------------------------------------------------

  /** While an init container runs, the sidecars started before it run as well. */
  function PeakWhileStarting(inits: seq<InitContainer>, resource: Resource): nat
  {
    if inits == [] then 0
    else
      var before, last := inits[..|inits| - 1], inits[|inits| - 1];
      Max(PeakWhileStarting(before, resource), SidecarSum(before, resource) + Amount(last.requests, resource))
  }

  function Scheduled(spec: Spec, resource: Resource): nat
  {
    Max(SidecarSum(spec.initContainers, resource) + AppSum(spec.containers, resource),
        PeakWhileStarting(spec.initContainers, resource))
    + Amount(spec.overhead, resource)
  }

  lemma {:induction false} PeakIsBelow(inits: seq<InitContainer>, resource: Resource)
    ensures PeakWhileStarting(inits, resource) <= SidecarSum(inits, resource) + InitMax(inits, resource)
  {
    if inits != [] {
      PeakIsBelow(inits[..|inits| - 1], resource);
    }
  }

  /** The display never shows less than the scheduler reserves. */
  lemma NeverBelowScheduler(spec: Spec, resource: Resource)
    ensures Effective(spec, resource) >= Scheduled(spec, resource)
  {
    PeakIsBelow(spec.initContainers, resource);
  }

  /** A largest init container after which no sidecar asks for anything. */
  ghost predicate LargestLast(inits: seq<InitContainer>, resource: Resource, i: nat)
    requires i < |inits|
  {
    && !inits[i].restartable && Amount(inits[i].requests, resource) == InitMax(inits, resource)
    && forall j | i < j < |inits| && inits[j].restartable :: Amount(inits[j].requests, resource) == 0
  }

  lemma {:induction false} SidecarsAfter(inits: seq<InitContainer>, resource: Resource, i: nat)
    requires i <= |inits|
    ensures SidecarSum(inits[..i], resource) <= SidecarSum(inits, resource)
    ensures SidecarSum(inits[..i], resource) == SidecarSum(inits, resource)
       <==> forall j | i <= j < |inits| && inits[j].restartable :: Amount(inits[j].requests, resource) == 0
  {
    if i < |inits| {
      var front := inits[..|inits| - 1];
      SidecarsAfter(front, resource, i);
      assert front[..i] == inits[..i];
      assert forall j | i <= j < |front| :: front[j] == inits[j];
    } else {
      assert inits[..i] == inits;
    }
  }

  lemma {:induction false} PeakAt(inits: seq<InitContainer>, resource: Resource, i: nat)
    requires i < |inits|
    ensures PeakWhileStarting(inits, resource) >= SidecarSum(inits[..i], resource) + Amount(inits[i].requests, resource)
    ensures !inits[i].restartable ==> InitMax(inits, resource) >= Amount(inits[i].requests, resource)
  {
    if i < |inits| - 1 {
      PeakAt(inits[..|inits| - 1], resource, i);
      assert inits[..|inits| - 1][..i] == inits[..i];
    }
  }

  lemma {:induction false} PeakFrom(inits: seq<InitContainer>, resource: Resource) returns (i: nat)
    requires inits != []
    ensures i < |inits| && PeakWhileStarting(inits, resource) == SidecarSum(inits[..i], resource)
            + Amount(inits[i].requests, resource)
  {
    i := |inits| - 1;
    if |inits| > 1 {
      var front := inits[..|inits| - 1];
      var j := PeakFrom(front, resource);
      assert front[..j] == inits[..j];
      if PeakWhileStarting(front, resource) > SidecarSum(front, resource) + Amount(inits[i].requests, resource) {
        i := j;
      }
    }
  }

  /** A peak as high as everything together comes from a largest init container behind all sidecars. */
  lemma PeakIsTotal(inits: seq<InitContainer>, resource: Resource)
    requires InitMax(inits, resource) > 0
    ensures PeakWhileStarting(inits, resource) == SidecarSum(inits, resource) + InitMax(inits, resource)
       <==> exists i :: 0 <= i < |inits| && LargestLast(inits, resource, i)
  {
    if i :| 0 <= i < |inits| && LargestLast(inits, resource, i) {
      PeakIsBelow(inits, resource);
      PeakAt(inits, resource, i);
      SidecarsAfter(inits, resource, i);
    } else {
      var i := PeakFrom(inits, resource);
      PeakAt(inits, resource, i);
      SidecarsAfter(inits, resource, i);
      SidecarsAfter(inits, resource, i + 1);
      assert inits[..i + 1][..i] == inits[..i];
      assert !LargestLast(inits, resource, i);
    }
  }

  /**
   * Both rules agree exactly if the app containers ask for at least as much as the largest init
   * container, or no sidecar that asks for anything starts after one of the largest.
   */
  lemma AgreesExactly(spec: Spec, resource: Resource)
    ensures Effective(spec, resource) == Scheduled(spec, resource)
       <==> || AppSum(spec.containers, resource) >= InitMax(spec.initContainers, resource)
            || exists i :: 0 <= i < |spec.initContainers| && LargestLast(spec.initContainers, resource, i)
  {
    PeakIsBelow(spec.initContainers, resource);
    if AppSum(spec.containers, resource) < InitMax(spec.initContainers, resource) {
      PeakIsTotal(spec.initContainers, resource);
    }
  }

  lemma {:induction false} LargestExists(inits: seq<InitContainer>, resource: Resource) returns (i: nat)
    requires InitMax(inits, resource) > 0
    ensures i < |inits| && !inits[i].restartable && Amount(inits[i].requests, resource) == InitMax(inits, resource)
  {
    var n := |inits| - 1;
    if !inits[n].restartable && Amount(inits[n].requests, resource) == InitMax(inits, resource) {
      i := n;
    } else {
      i := LargestExists(inits[..n], resource);
    }
  }

  /** In particular when every sidecar is listed before the regular init containers. */
  lemma AgreesWhenSidecarsFirst(spec: Spec, resource: Resource)
    requires forall i, j | 0 <= i < j < |spec.initContainers| ::
             spec.initContainers[j].restartable
             ==> spec.initContainers[i].restartable
    ensures Effective(spec, resource) == Scheduled(spec, resource)
  {
    AgreesExactly(spec, resource);
    if InitMax(spec.initContainers, resource) > 0 {
      var i := LargestExists(spec.initContainers, resource);
      assert LargestLast(spec.initContainers, resource, i);
    }
  }
}
