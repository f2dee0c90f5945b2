/**
  The ledger refuses exactly what does not fit, and what it hands out is disjoint, of the
  requested size and accounted for.
 */
module LedgerExact {
  import opened Ordering
  import opened Ledger
  import opened LedgerFacts

  // ---------- hugepages ----------

  predicate Draws(cfg: Config, vm: Vm, size: string) {
    UsesPages(vm) && PageSizeOf(cfg, vm) == size
  }

  function PageDemand(cfg: Config, vms: seq<Vm>, size: string): int {
    if vms == [] then 0
    else
      var vm := vms[|vms| - 1];
      PageDemand(cfg, vms[..|vms| - 1], size) + if Draws(cfg, vm, size) then PagesNeeded(vm.sizeMb, size) else 0
  }

  predicate AnyDraws(cfg: Config, vms: seq<Vm>, size: string) {
    exists vm :: vm in vms && Draws(cfg, vm, size)
  }

  predicate ShortOf(errs: seq<Shortage>, size: string) {
    exists e :: e in errs && e.PagesShort? && e.pageSize == size
  }

  /** Allocated plus free is always the total, and totals never change. */
  predicate Balanced(b: Books, cfg: Config) {
    && b.pools.Keys == PoolMap(cfg.pools).Keys
    && forall s :: s in b.pools ==> b.pools[s].total == PoolMap(cfg.pools)[s].total && b.pools[s].taken + b.pools[s].free == b.pools[s].total
  }

  lemma {:induction false} OpeningBalanced(pools: seq<Pool>)
    ensures forall s :: s in PoolMap(pools) ==> PoolMap(pools)[s].taken == 0 && PoolMap(pools)[s].free == PoolMap(pools)[s].total
  {
    if pools != [] {
      OpeningBalanced(pools[..|pools| - 1]);
    }
  }

  lemma {:induction false} PoolsBalance(cfg: Config, vms: seq<Vm>)
    ensures Balanced(ServeAll(cfg, vms, Opening(cfg)), cfg)
  {
    if vms == [] {
      OpeningBalanced(cfg.pools);
    } else {
      PoolsBalance(cfg, vms[..|vms| - 1]);
      var b := ServeAll(cfg, vms[..|vms| - 1], Opening(cfg));
      CoreStepGrows(cfg, vms[|vms| - 1], PageStep(cfg, vms[|vms| - 1], b));
    }
  }

  predicate PagesSettled(cfg: Config, vms: seq<Vm>, b: Books, size: string)
    requires size in b.pools
  {
    var u, demand := b.pools[size], PageDemand(cfg, vms, size);
    if ShortOf(b.errs, size) then demand > u.total && AnyDraws(cfg, vms, size)
    else u.taken == demand && (AnyDraws(cfg, vms, size) ==> demand <= u.total)
  }

  lemma AnyDrawsSnoc(cfg: Config, vms: seq<Vm>, vm: Vm, size: string)
    ensures AnyDraws(cfg, vms + [vm], size) <==> AnyDraws(cfg, vms, size) || Draws(cfg, vm, size)
  {
    hide Draws;
    if Draws(cfg, vm, size) {
      assert vm in vms + [vm];
    }
    if AnyDraws(cfg, vms, size) {
      var v :| v in vms && Draws(cfg, v, size);
      assert v in vms + [vm];
    }
  }

  lemma ShortOfConcat(a: seq<Shortage>, b: seq<Shortage>, size: string)
    ensures ShortOf(a + b, size) <==> ShortOf(a, size) || ShortOf(b, size)
  {
    if ShortOf(a, size) {
      var e :| e in a && e.PagesShort? && e.pageSize == size;
      assert e in a + b;
    }
    if ShortOf(b, size) {
      var e :| e in b && e.PagesShort? && e.pageSize == size;
      assert e in a + b;
    }
  }

  lemma PageStepSettles(cfg: Config, vms: seq<Vm>, vm: Vm, b: Books, size: string)
    requires Balanced(b, cfg) && size in b.pools && PagesSettled(cfg, vms, b, size)
    ensures size in PageStep(cfg, vm, b).pools && PagesSettled(cfg, vms + [vm], PageStep(cfg, vm, b), size)
  {
    var c := PageStep(cfg, vm, b);
    assert (vms + [vm])[..|vms|] == vms;
    AnyDrawsSnoc(cfg, vms, vm, size);
    var added := if |c.errs| > |b.errs| then [c.errs[|b.errs|]] else [];
    assert c.errs == b.errs + added;
    ShortOfConcat(b.errs, added, size);
    hide AnyDraws;
    if Draws(cfg, vm, size) {
      PagesAreNonNegative(vm.sizeMb, size);
      if b.pools[size].free < PagesNeeded(vm.sizeMb, size) {
        assert added[0].PagesShort? && added[0] in added;
      }
    }
  }

  lemma CoreStepKeepsPages(cfg: Config, vms: seq<Vm>, vm: Vm, b: Books, size: string)
    requires size in b.pools && PagesSettled(cfg, vms, b, size)
    ensures size in CoreStep(cfg, vm, b).pools && PagesSettled(cfg, vms, CoreStep(cfg, vm, b), size)
  {
    var c := CoreStep(cfg, vm, b);
    var added := if |c.errs| > |b.errs| then [c.errs[|b.errs|]] else [];
    assert c.errs == b.errs + added;
    assert forall e :: e in c.errs ==> e in b.errs || e in added;
    assert forall e :: e in b.errs ==> e in c.errs;
  }

  lemma {:induction false} AllSettle(cfg: Config, vms: seq<Vm>, size: string)
    requires size in PoolMap(cfg.pools)
    ensures Balanced(ServeAll(cfg, vms, Opening(cfg)), cfg)
    ensures PagesSettled(cfg, vms, ServeAll(cfg, vms, Opening(cfg)), size)
  {
    PoolsBalance(cfg, vms);
    if vms == [] {
      OpeningBalanced(cfg.pools);
    } else {
      var n := |vms| - 1;
      var b := ServeAll(cfg, vms[..n], Opening(cfg));
      AllSettle(cfg, vms[..n], size);
      assert vms == vms[..n] + [vms[n]];
      PageStepSettles(cfg, vms[..n], vms[n], b, size);
      CoreStepKeepsPages(cfg, vms, vms[n], PageStep(cfg, vms[n], b), size);
    }
  }

  lemma {:induction false} DemandOfInsert(cfg: Config, vm: Vm, vms: seq<Vm>, size: string)
    ensures PageDemand(cfg, InsertVm(vm, vms), size) == PageDemand(cfg, [vm], size) + PageDemand(cfg, vms, size)
  {
    if vms == [] || Less(vm.name, vms[0].name) {
      DemandSplits(cfg, [vm], vms, size);
    } else {
      DemandOfInsert(cfg, vm, vms[1..], size);
      DemandSplits(cfg, [vms[0]], InsertVm(vm, vms[1..]), size);
      DemandSplits(cfg, [vms[0]], vms[1..], size);
      assert vms == [vms[0]] + vms[1..];
    }
  }

  lemma {:induction false} DemandSplits(cfg: Config, a: seq<Vm>, c: seq<Vm>, size: string)
    ensures PageDemand(cfg, a + c, size) == PageDemand(cfg, a, size) + PageDemand(cfg, c, size)
  {
    if c == [] {
      assert a + c == a;
    } else {
      var n := |c| - 1;
      DemandSplits(cfg, a, c[..n], size);
      assert (a + c)[..|a| + n] == a + c[..n];
    }
  }

  lemma {:induction false} DemandOfSorted(cfg: Config, vms: seq<Vm>, size: string)
    ensures PageDemand(cfg, SortVms(vms), size) == PageDemand(cfg, vms, size)
  {
    if vms != [] {
      var n := |vms| - 1;
      DemandOfSorted(cfg, vms[..n], size);
      DemandOfInsert(cfg, vms[n], SortVms(vms[..n]), size);
      assert [vms[n]][..0] == [];
    }
  }

  lemma {:induction false} SortedMembers(vms: seq<Vm>)
    ensures forall v :: v in SortVms(vms) <==> v in vms
  {
    SortVmsFacts(vms);
    forall v ensures v in SortVms(vms) <==> v in vms {
      assert v in SortVms(vms) <==> v in multiset(SortVms(vms));
      assert v in vms <==> v in multiset(vms);
    }
  }

  /** Per page size, the pool runs short exactly if machines draw on it and want more than it holds. */
  lemma {:induction false} HugepagesExact(cfg: Config, size: string)
    requires size in PoolMap(cfg.pools)
    ensures ShortOf(Closing(cfg).errs, size) <==>
      AnyDraws(cfg, cfg.vms, size) && PageDemand(cfg, cfg.vms, size) > PoolMap(cfg.pools)[size].total
    ensures !ShortOf(Closing(cfg).errs, size) ==>
      size in Closing(cfg).pools && Closing(cfg).pools[size].taken == PageDemand(cfg, cfg.vms, size)
  {
    AllSettle(cfg, SortVms(cfg.vms), size);
    DemandOfSorted(cfg, cfg.vms, size);
    SortedMembers(cfg.vms);
  }

  // ---------- cores: exactness ----------

  function PinnedTotal(vms: seq<Vm>): int {
    if vms == [] then 0
    else PinnedTotal(vms[..|vms| - 1]) + if Pinned(vms[|vms| - 1]) then vms[|vms| - 1].vcpus else 0
  }

  predicate ShortOfCores(errs: seq<Shortage>) {
    exists e :: e in errs && e.CoresShort?
  }

  lemma {:induction false} MinusMembers(xs: seq<int>, gone: set<int>)
    ensures forall x :: x in Minus(xs, gone) <==> x in xs && x !in gone
    ensures Distinct(xs) ==> Distinct(Minus(xs, gone))
  {
    if xs != [] {
      MinusMembers(xs[..|xs| - 1], gone);
      assert xs == xs[..|xs| - 1] + [xs[|xs| - 1]];
    }
  }

  lemma {:induction false} MinusTwice(xs: seq<int>, a: set<int>, b: set<int>)
    ensures Minus(xs, a + b) == Minus(Minus(xs, a), b)
  {
    if xs != [] {
      var init, l := xs[..|xs| - 1], xs[|xs| - 1];
      MinusTwice(init, a, b);
      var m := Minus(init, a);
      assert (m + [l])[..|m|] == m;
      assert m + [] == m;
    }
  }

  lemma {:induction false} MinusAll(xs: seq<int>, gone: set<int>)
    requires forall i :: 0 <= i < |xs| ==> xs[i] in gone
    ensures Minus(xs, gone) == []
  {
    if xs != [] {
      MinusAll(xs[..|xs| - 1], gone);
    }
  }

  /** Marking the first n free cores used leaves exactly the others free. */
  lemma {:induction false} MinusPrefix(xs: seq<int>, n: nat)
    requires Distinct(xs) && n <= |xs|
    ensures Minus(xs, Elements(xs[..n])) == xs[n..]
  {
    if n == |xs| {
      assert xs[..n] == xs;
      MinusAll(xs, Elements(xs));
    } else {
      var init, l := xs[..|xs| - 1], xs[|xs| - 1];
      MinusPrefix(init, n);
      assert init[..n] == xs[..n];
      assert l !in xs[..n];
      assert init[n..] + [l] == xs[n..];
    }
  }

  predicate CoresSettled(cfg: Config, vms: seq<Vm>, b: Books, capacity: int) {
    if ShortOfCores(b.errs) then PinnedTotal(vms) > capacity
    else |Minus(SortInts(cfg.isolated), b.used)| + PinnedTotal(vms) == capacity
  }

  lemma CoreStepSettles(cfg: Config, vms: seq<Vm>, vm: Vm, b: Books, capacity: int)
    requires Distinct(cfg.isolated) && !OnDeclaredNode(cfg, vm) && CoresSettled(cfg, vms, b, capacity)
    ensures CoresSettled(cfg, vms + [vm], CoreStep(cfg, vm, b), capacity)
  {
    assert (vms + [vm])[..|vms|] == vms;
    var c := CoreStep(cfg, vm, b);
    if ShortOfCores(b.errs) {
      var e :| e in b.errs && e.CoresShort?;
      assert e in c.errs;
    } else if Pinned(vm) {
      var xs := SortInts(cfg.isolated);
      var avail := Minus(xs, b.used);
      if |avail| < vm.vcpus {
        assert c.errs[|b.errs|].CoresShort? && c.errs[|b.errs|] in c.errs;
      } else {
        SortIntsDistinct(cfg.isolated);
        MinusMembers(xs, b.used);
        MinusTwice(xs, b.used, Elements(avail[..vm.vcpus]));
        MinusPrefix(avail, vm.vcpus);
      }
    }
  }

  lemma PageStepKeepsCores(cfg: Config, vms: seq<Vm>, vm: Vm, b: Books, capacity: int)
    requires CoresSettled(cfg, vms, b, capacity)
    ensures CoresSettled(cfg, vms, PageStep(cfg, vm, b), capacity)
  {
    var c := PageStep(cfg, vm, b);
    assert forall e :: e in b.errs ==> e in c.errs;
    assert forall e :: e in c.errs && e.CoresShort? ==> e in b.errs;
  }

  lemma {:induction false} AllCoresSettle(cfg: Config, vms: seq<Vm>, capacity: int)
    requires Distinct(cfg.isolated) && (forall vm :: vm in vms ==> !OnDeclaredNode(cfg, vm))
    requires capacity == |Minus(SortInts(cfg.isolated), Reserved(cfg))|
    ensures CoresSettled(cfg, vms, ServeAll(cfg, vms, Opening(cfg)), capacity)
  {
    if vms != [] {
      var n := |vms| - 1;
      AllCoresSettle(cfg, vms[..n], capacity);
      assert vms == vms[..n] + [vms[n]];
      var b := ServeAll(cfg, vms[..n], Opening(cfg));
      PageStepKeepsCores(cfg, vms[..n], vms[n], b, capacity);
      CoreStepSettles(cfg, vms[..n], vms[n], PageStep(cfg, vms[n], b), capacity);
    }
  }

  lemma {:induction false} PinnedSplits(a: seq<Vm>, c: seq<Vm>)
    ensures PinnedTotal(a + c) == PinnedTotal(a) + PinnedTotal(c)
  {
    if c == [] {
      assert a + c == a;
    } else {
      PinnedSplits(a, c[..|c| - 1]);
      assert (a + c)[..|a| + |c| - 1] == a + c[..|c| - 1];
    }
  }

  lemma {:induction false} PinnedOfInsert(vm: Vm, vms: seq<Vm>)
    ensures PinnedTotal(InsertVm(vm, vms)) == PinnedTotal([vm]) + PinnedTotal(vms)
  {
    if vms == [] || Less(vm.name, vms[0].name) {
      PinnedSplits([vm], vms);
    } else {
      PinnedOfInsert(vm, vms[1..]);
      PinnedSplits([vms[0]], InsertVm(vm, vms[1..]));
      PinnedSplits([vms[0]], vms[1..]);
      assert vms == [vms[0]] + vms[1..];
    }
  }

  lemma {:induction false} PinnedOfSorted(vms: seq<Vm>)
    ensures PinnedTotal(SortVms(vms)) == PinnedTotal(vms)
  {
    if vms != [] {
      var n := |vms| - 1;
      PinnedOfSorted(vms[..n]);
      PinnedOfInsert(vms[n], SortVms(vms[..n]));
      assert [vms[n]][..0] == [];
    }
  }

  lemma CardinalityOfDistinct(xs: seq<int>)
    requires Distinct(xs)
    ensures |Elements(xs)| == |xs|
  {
    if xs != [] {
      var n := |xs| - 1;
      CardinalityOfDistinct(xs[..n]);
      ElementsSnoc(xs[..n], xs[n]);
      assert xs == xs[..n] + [xs[n]];
      assert xs[n] !in Elements(xs[..n]);
      hide Elements, Distinct;
    }
  }

  /** Without NUMA restrictions, cores run short exactly if more vCPUs are pinned than isolated cores are left by VPP. */
  lemma CoresExact(cfg: Config)
    requires Distinct(cfg.isolated) && forall vm :: vm in cfg.vms ==> !OnDeclaredNode(cfg, vm)
    ensures ShortOfCores(Closing(cfg).errs) <==> PinnedTotal(cfg.vms) > |Elements(cfg.isolated) - Reserved(cfg)|
  {
    var s, xs := SortVms(cfg.vms), SortInts(cfg.isolated);
    SortedMembers(cfg.vms);
    PinnedOfSorted(cfg.vms);
    SortIntsDistinct(cfg.isolated);
    MinusMembers(xs, Reserved(cfg));
    var left := Minus(xs, Reserved(cfg));
    CardinalityOfDistinct(left);
    assert Elements(left) == Elements(cfg.isolated) - Reserved(cfg) by {
      assert forall x :: x in xs <==> x in Elements(xs);
      assert forall x :: x in cfg.isolated <==> x in Elements(cfg.isolated);
    }
    AllCoresSettle(cfg, s, |left|);
  }

  // ---------- cores: what is handed out ----------

  predicate DistinctLists(cfg: Config) {
    Distinct(cfg.isolated) && forall i :: 0 <= i < |cfg.numa| ==> Distinct(cfg.numa[i].cores)
  }

  function Assigned(cores: map<string, seq<int>>): set<int> {
    set n, i | n in cores && 0 <= i < |cores[n]| :: cores[n][i]
  }

  /** Core sets are disjoint from each other and from VPP's, and `used` is exactly their union with VPP's. */
  ghost predicate Partition(cfg: Config, b: Books) {
    && b.used == Reserved(cfg) + Assigned(b.cores)
    && (forall n, c :: n in b.cores && c in b.cores[n] ==> c !in Reserved(cfg))
    && (forall m, n, c :: m in b.cores && n in b.cores && m != n && c in b.cores[m] ==> c !in b.cores[n])
    && (forall n :: n in b.cores ==> Distinct(b.cores[n]))
  }

  lemma CandidatesDistinct(cfg: Config, vm: Vm)
    requires DistinctLists(cfg)
    ensures Distinct(Candidates(cfg, vm))
  {
    if OnDeclaredNode(cfg, vm) {
      NodeIsListed(cfg.numa, vm.numaNode.value);
      SortIntsDistinct(FindNode(cfg.numa, vm.numaNode.value).value.cores);
    } else {
      SortIntsDistinct(cfg.isolated);
    }
  }

  lemma {:induction false} NodeIsListed(numa: seq<NumaNode>, node: int)
    ensures FindNode(numa, node).Some? ==> FindNode(numa, node).value in numa
  {
    if numa != [] && numa[0].node != node {
      NodeIsListed(numa[1..], node);
    }
  }

  lemma AssignedGrows(m: map<string, seq<int>>, name: string, xs: seq<int>)
    requires name !in m
    ensures Assigned(m[name := xs]) == Assigned(m) + Elements(xs)
  {
    var m' := m[name := xs];
    forall c | c in Assigned(m) + Elements(xs) ensures c in Assigned(m') {
      if c in Assigned(m) {
        var n, i :| n in m && 0 <= i < |m[n]| && m[n][i] == c;
        assert m'[n][i] == c;
      } else {
        var i :| 0 <= i < |xs| && xs[i] == c;
        assert m'[name][i] == c;
      }
    }
    forall c | c in Assigned(m') ensures c in Assigned(m) + Elements(xs) {
      var n, i :| n in m' && 0 <= i < |m'[n]| && m'[n][i] == c;
      if n != name { assert m[n][i] == c; }
    }
  }

  lemma PartitionGrows(cfg: Config, b: Books, c: Books, name: string, xs: seq<int>)
    requires Partition(cfg, b) && name !in b.cores && Distinct(xs) && forall x :: x in xs ==> x !in b.used
    requires c.cores == b.cores[name := xs] && c.used == b.used + Elements(xs)
    ensures Partition(cfg, c)
  {
    AssignedGrows(b.cores, name, xs);
    forall n, x | n in b.cores && x in b.cores[n] ensures x in b.used {
      var i :| 0 <= i < |b.cores[n]| && b.cores[n][i] == x;
      assert x in Assigned(b.cores);
    }
    hide Assigned, Reserved;
  }

  lemma CoreStepPartitions(cfg: Config, vm: Vm, b: Books)
    requires DistinctLists(cfg) && Partition(cfg, b) && vm.name !in b.cores
    ensures Partition(cfg, CoreStep(cfg, vm, b))
  {
    if Pinned(vm) {
      var avail := Minus(Candidates(cfg, vm), b.used);
      CandidatesDistinct(cfg, vm);
      MinusMembers(Candidates(cfg, vm), b.used);
      hide Candidates, Minus, DistinctLists, Partition;
      var xs := if |avail| < vm.vcpus then [] else avail[..vm.vcpus];
      assert forall x :: x in xs ==> x in avail;
      assert b.used + Elements<int>([]) == b.used;
      PartitionGrows(cfg, b, CoreStep(cfg, vm, b), vm.name, xs);
    }
  }

  predicate NamedIn(name: string, vms: seq<Vm>) {
    exists i :: 0 <= i < |vms| && vms[i].name == name
  }

  lemma {:induction false} AllPartition(cfg: Config, vms: seq<Vm>)
    requires DistinctLists(cfg) && UniqueVmNames(vms)
    ensures var b := ServeAll(cfg, vms, Opening(cfg));
      Partition(cfg, b) && forall n :: n in b.cores ==> NamedIn(n, vms)
  {
    if vms == [] {
      assert Assigned(map[]) == {};
    } else {
      var n := |vms| - 1;
      var b := ServeAll(cfg, vms[..n], Opening(cfg));
      AllPartition(cfg, vms[..n]);
      PageStepGrows(cfg, vms[n], b);
      assert vms[n].name !in b.cores;
      CoreStepPartitions(cfg, vms[n], PageStep(cfg, vms[n], b));
      forall m | m in ServeAll(cfg, vms, Opening(cfg)).cores ensures NamedIn(m, vms) {
        if m in b.cores {
          var i :| 0 <= i < n && vms[..n][i].name == m;
          assert vms[i].name == m;
        } else {
          assert vms[n].name == m;
        }
      }
    }
  }

  /** If nothing ran short, every pinned machine got as many cores as it asked for, all from its candidates. */
  lemma {:induction false} FullyServed(cfg: Config, vms: seq<Vm>, vm: Vm)
    requires UniqueVmNames(vms) && ServeAll(cfg, vms, Opening(cfg)).errs == [] && vm in vms && Pinned(vm)
    ensures var b := ServeAll(cfg, vms, Opening(cfg));
      && vm.name in b.cores && |b.cores[vm.name]| == vm.vcpus
      && forall c :: c in b.cores[vm.name] ==> c in Candidates(cfg, vm)
  {
    var n := |vms| - 1;
    var b := ServeAll(cfg, vms[..n], Opening(cfg));
    PageStepGrows(cfg, vms[n], b);
    CoreStepGrows(cfg, vms[n], PageStep(cfg, vms[n], b));
    if vm == vms[n] {
      MinusMembers(Candidates(cfg, vm), b.used);
    } else {
      assert vm in vms[..n];
      FullyServed(cfg, vms[..n], vm);
      var i :| 0 <= i < n && vms[i] == vm;
      ServeElsewhere(cfg, vms[n], b, vm.name);
    }
  }

  /** The books of an admitted configuration, in full. */
  lemma AdmittedBooks(cfg: Config)
    requires DistinctLists(cfg) && UniqueVmNames(cfg.vms) && Admitted(cfg)
    ensures Partition(cfg, Closing(cfg)) && Balanced(Closing(cfg), cfg)
    ensures forall vm :: vm in cfg.vms && Pinned(vm) ==>
      vm.name in Closing(cfg).cores && |Closing(cfg).cores[vm.name]| == vm.vcpus
    ensures forall c :: c in Minus(SortInts(cfg.isolated), Closing(cfg).used) <==>
      c in cfg.isolated && c !in Reserved(cfg) && c !in Assigned(Closing(cfg).cores)
  {
    var s := SortVms(cfg.vms);
    SortVmsFacts(cfg.vms);
    SortedMembers(cfg.vms);
    NameOrderIsUnique(s);
    AllPartition(cfg, s);
    PoolsBalance(cfg, s);
    forall vm | vm in cfg.vms && Pinned(vm)
      ensures vm.name in Closing(cfg).cores && |Closing(cfg).cores[vm.name]| == vm.vcpus
    {
      FullyServed(cfg, s, vm);
    }
    MinusMembers(SortInts(cfg.isolated), Closing(cfg).used);
    SortIntsDistinct(cfg.isolated);
    assert forall c :: c in cfg.isolated <==> c in Elements(cfg.isolated);
    assert forall c :: c in SortInts(cfg.isolated) <==> c in Elements(SortInts(cfg.isolated));
  }

  lemma NameOrderIsUnique(vms: seq<Vm>)
    requires NameOrder(vms)
    ensures UniqueVmNames(vms)
  {
    forall i, j | 0 <= i < j < |vms| ensures vms[i].name != vms[j].name {
      LessTotal(vms[i].name, vms[j].name);
    }
  }
}
