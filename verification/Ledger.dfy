/**
  The resource ledger: greedy allocation of hugepages and isolated cores to the machines of a
  configuration, in name order (internal/model/resources.go).
 */
module Ledger {
  import opened Common
  import opened Ordering

  datatype Pool = Pool(pageSize: string, count: int)
  datatype NumaNode = NumaNode(node: int, cores: seq<int>)

  /** `normal` is memory backing "normal"; a missing `pin` means pinned. */
  datatype Vm = Vm(name: string, sizeMb: int, pageSize: string, normal: bool, numaNode: Option<int>, vcpus: int, pin: Option<bool>)

  /** `workers` is the parsed VPP worker list, empty if it does not parse; main core 0 is unset. */
  datatype Config = Config(pools: seq<Pool>, isolated: seq<int>, numa: seq<NumaNode>, mainCore: int, workers: seq<int>, vms: seq<Vm>)

  datatype Usage = Usage(total: int, taken: int, free: int)

  datatype Shortage =
    | NoPool(vm: string)
    | PagesShort(vm: string, pageSize: string, need: int, free: int)
    | CoresShort(vm: string, node: Option<int>, need: int, available: int)

  /** The books while machines are being served. */
  datatype Books = Books(pools: map<string, Usage>, used: set<int>, cores: map<string, seq<int>>, errs: seq<Shortage>)

  // ---------- helpers of the source ----------

  function PagesNeeded(sizeMb: int, pageSize: string): int {
    if pageSize == "2M" then (sizeMb + 1) / 2
    else if pageSize == "1G" then (sizeMb + 1023) / 1024
    else 0
  }

  function Minus(xs: seq<int>, gone: set<int>): seq<int> {
    if xs == [] then []
    else Minus(xs[..|xs| - 1], gone) + if xs[|xs| - 1] in gone then [] else [xs[|xs| - 1]]
  }

  function Reserved(cfg: Config): set<int> {
    (if cfg.mainCore != 0 then {cfg.mainCore} else {}) + Elements(cfg.workers)
  }

  function PoolMap(pools: seq<Pool>): map<string, Usage> {
    if pools == [] then map[]
    else var p := pools[|pools| - 1]; PoolMap(pools[..|pools| - 1])[p.pageSize := Usage(p.count, 0, p.count)]
  }

  function FindNode(numa: seq<NumaNode>, node: int): Option<NumaNode> {
    if numa == [] then None
    else if numa[0].node == node then Some(numa[0])
    else FindNode(numa[1..], node)
  }

  predicate OnDeclaredNode(cfg: Config, vm: Vm) {
    vm.numaNode.Some? && FindNode(cfg.numa, vm.numaNode.value).Some?
  }

  /** The cores a machine may draw from, lowest first. */
  function Candidates(cfg: Config, vm: Vm): seq<int> {
    if OnDeclaredNode(cfg, vm) then SortInts(FindNode(cfg.numa, vm.numaNode.value).value.cores) else SortInts(cfg.isolated)
  }

  predicate UsesPages(vm: Vm) {
    vm.sizeMb > 0 && !vm.normal
  }

  predicate Pinned(vm: Vm) {
    vm.vcpus > 0 && (vm.pin.None? || vm.pin.value)
  }

  /** An unset page size means the first pool. */
  function PageSizeOf(cfg: Config, vm: Vm): string {
    if vm.pageSize == "" && cfg.pools != [] then cfg.pools[0].pageSize else vm.pageSize
  }

  // ---------- serving one machine ----------

  function PageStep(cfg: Config, vm: Vm, b: Books): Books {
    if !UsesPages(vm) then b
    else
      var size := PageSizeOf(cfg, vm);
      if size !in b.pools then b.(errs := b.errs + [NoPool(vm.name)])
      else
        var u, pages := b.pools[size], PagesNeeded(vm.sizeMb, size);
        if u.free < pages then b.(errs := b.errs + [PagesShort(vm.name, size, pages, u.free)])
        else b.(pools := b.pools[size := Usage(u.total, u.taken + pages, u.free - pages)])
  }

  function CoreStep(cfg: Config, vm: Vm, b: Books): Books {
    if !Pinned(vm) then b
    else
      var avail := Minus(Candidates(cfg, vm), b.used);
      if |avail| < vm.vcpus then
        b.(cores := b.cores[vm.name := []],
           errs := b.errs + [CoresShort(vm.name, if OnDeclaredNode(cfg, vm) then vm.numaNode else None, vm.vcpus, |avail|)])
      else
        b.(cores := b.cores[vm.name := avail[..vm.vcpus]], used := b.used + Elements(avail[..vm.vcpus]))
  }

  function Serve(cfg: Config, vm: Vm, b: Books): Books {
    CoreStep(cfg, vm, PageStep(cfg, vm, b))
  }

  function ServeAll(cfg: Config, vms: seq<Vm>, b: Books): Books {
    if vms == [] then b else Serve(cfg, vms[|vms| - 1], ServeAll(cfg, vms[..|vms| - 1], b))
  }

  function Opening(cfg: Config): Books {
    Books(PoolMap(cfg.pools), Reserved(cfg), map[], [])
  }

  // ---------- name order ----------

  function InsertVm(vm: Vm, vms: seq<Vm>): seq<Vm> {
    if vms == [] || Less(vm.name, vms[0].name) then [vm] + vms else [vms[0]] + InsertVm(vm, vms[1..])
  }

  function SortVms(vms: seq<Vm>): seq<Vm> {
    if vms == [] then [] else InsertVm(vms[|vms| - 1], SortVms(vms[..|vms| - 1]))
  }

  /** The outcome of allocating for a configuration. */
  function Closing(cfg: Config): Books {
    ServeAll(cfg, SortVms(cfg.vms), Opening(cfg))
  }

  predicate Admitted(cfg: Config) {
    Closing(cfg).errs == []
  }

  datatype Allocation = Allocation(cores: seq<int>, hugepageSize: string)

  /** AllocationFor: nothing for a configuration that does not fit. */
  function AllocationFor(cfg: Config, vm: Vm): Allocation {
    var b := Closing(cfg);
    if b.errs != [] then Allocation([], "")
    else Allocation(if vm.name in b.cores then b.cores[vm.name] else [], if vm.normal then "" else PageSizeOf(cfg, vm))
  }

  // ---------- the ledger object ----------

  class PoolLedger {
    var hugepages: map<string, Usage>
    var isolated: seq<int>
    var vppReserved: seq<int>
    var vmCores: map<string, seq<int>>
    var free: seq<int>

    predicate OpensFor(cfg: Config)
      reads this
    {
      && hugepages == PoolMap(cfg.pools) && isolated == SortInts(cfg.isolated)
      && Increasing(vppReserved) && Elements(vppReserved) == Reserved(cfg) && vmCores == map[]
    }

    /** NewPoolLedger. */
    constructor (cfg: Config)
      ensures OpensFor(cfg) && free == Minus(SortInts(cfg.isolated), Reserved(cfg))
    {
      hugepages := map[];
      isolated := SortInts(cfg.isolated);
      vppReserved, free := [], [];
      vmCores := map[];
      new;
      for i := 0 to |cfg.pools|
        invariant hugepages == PoolMap(cfg.pools[..i])
        invariant isolated == SortInts(cfg.isolated) && vmCores == map[] && vppReserved == []
      {
        assert cfg.pools[..i + 1][..i] == cfg.pools[..i];
        var p := cfg.pools[i];
        hugepages := hugepages[p.pageSize := Usage(p.count, 0, p.count)];
      }
      assert cfg.pools[..|cfg.pools|] == cfg.pools;
      vppReserved := SortedElements(Reserved(cfg));
      free := MinusInts(isolated, vppReserved);
    }

    /** Allocate: every machine in name order; shortages are reported and serving goes on. */
    method Allocate(cfg: Config) returns (errs: seq<Shortage>)
      requires OpensFor(cfg)
      modifies this
      ensures hugepages == Closing(cfg).pools && vmCores == Closing(cfg).cores && errs == Closing(cfg).errs
      ensures free == Minus(SortInts(cfg.isolated), Closing(cfg).used)
      ensures isolated == old(isolated) && vppReserved == old(vppReserved)
    {
      errs := [];
      var used := Elements(vppReserved);
      var vms := SortVms(cfg.vms);
      ghost var open := Opening(cfg);
      for i := 0 to |vms|
        invariant Books(hugepages, used, vmCores, errs) == ServeAll(cfg, vms[..i], open)
        invariant isolated == old(isolated) && vppReserved == old(vppReserved)
      {
        assert vms[..i + 1][..i] == vms[..i];
        var vm := vms[i];
        ghost var b := ServeAll(cfg, vms[..i], open);
        errs := AllocatePages(cfg, vm, errs);
        assert Books(hugepages, used, vmCores, errs) == PageStep(cfg, vm, b);
        if Pinned(vm) {
          var cores, short, now := AllocateCores(cfg, vm, used);
          errs := errs + short;
          used := now;
          vmCores := vmCores[vm.name := cores];
        }
        assert Books(hugepages, used, vmCores, errs) == Serve(cfg, vm, b);
      }
      assert vms[..|vms|] == vms;
      var gone := SortedElements(used);
      free := MinusInts(isolated, gone);
    }

    method AllocatePages(cfg: Config, vm: Vm, errs: seq<Shortage>) returns (r: seq<Shortage>)
      modifies this`hugepages
      ensures forall used, cores :: Books(hugepages, used, cores, r) == PageStep(cfg, vm, Books(old(hugepages), used, cores, errs))
    {
      r := errs;
      if UsesPages(vm) {
        var size := PageSizeOf(cfg, vm);
        if size !in hugepages {
          r := r + [NoPool(vm.name)];
        } else {
          var u, pages := hugepages[size], PagesNeeded(vm.sizeMb, size);
          if u.free < pages {
            r := r + [PagesShort(vm.name, size, pages, u.free)];
          } else {
            hugepages := hugepages[size := Usage(u.total, u.taken + pages, u.free - pages)];
          }
        }
      }
    }

    method AllocateCores(cfg: Config, vm: Vm, used: set<int>) returns (cores: seq<int>, errs: seq<Shortage>, now: set<int>)
      requires Pinned(vm) && isolated == SortInts(cfg.isolated)
      ensures forall pools, m, es :: Books(pools, now, m[vm.name := cores], es + errs) == CoreStep(cfg, vm, Books(pools, used, m, es))
    {
      var gone := SortedElements(used);
      var within: Option<int> := None;
      var candidates := MinusInts(isolated, gone);
      if vm.numaNode.Some? {
        var i := 0;
        while i < |cfg.numa| && cfg.numa[i].node != vm.numaNode.value
          invariant i <= |cfg.numa|
          invariant FindNode(cfg.numa, vm.numaNode.value) == FindNode(cfg.numa[i..], vm.numaNode.value)
        {
          assert cfg.numa[i..][1..] == cfg.numa[i + 1..];
          i := i + 1;
        }
        if i < |cfg.numa| {
          assert cfg.numa[i..][0] == cfg.numa[i];
          candidates := MinusInts(SortInts(cfg.numa[i].cores), gone);
          within := vm.numaNode;
        }
      }
      assert candidates == Minus(Candidates(cfg, vm), used);
      if |candidates| < vm.vcpus {
        return [], [CoresShort(vm.name, within, vm.vcpus, |candidates|)], used;
      }
      cores, errs := candidates[..vm.vcpus], [];
      now := used;
      for i := 0 to |cores|
        invariant now == used + Elements(cores[..i])
      {
        assert Elements(cores[..i + 1]) == Elements(cores[..i]) + {cores[i]} by {
          assert cores[..i + 1] == cores[..i] + [cores[i]];
        }
        now := now + {cores[i]};
      }
      assert cores[..|cores|] == cores;
      assert forall es: seq<Shortage> :: es + errs == es;
    }
  }

  method MinusInts(all: seq<int>, remove: seq<int>) returns (out: seq<int>)
    ensures out == Minus(all, Elements(remove))
  {
    var rm := Elements(remove);
    out := [];
    for i := 0 to |all|
      invariant out == Minus(all[..i], rm)
    {
      assert all[..i + 1][..i] == all[..i];
      if all[i] !in rm {
        out := out + [all[i]];
      }
    }
    assert all[..|all|] == all;
  }
}
