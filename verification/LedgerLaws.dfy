/**
  Who gets which cores, in terms of the declarations alone (internal/model/resources.go:43-192): a
  machine on a declared NUMA node draws from that node, any other from the isolated cores, and
  each takes the lowest that VPP and the machines before it in name order have left.
 */
module LedgerLaws {
  import opened Common
  import opened Ordering
  import opened Ledger
  import opened LedgerFacts
  import opened LedgerExact

  // ---------- the units ----------

  /** Pages are the smallest number that covers the memory, 2 or 1024 MB each. */
  lemma PagesCover(sizeMb: int)
    requires sizeMb > 0
    ensures var p := PagesNeeded(sizeMb, "2M"); 2 * (p - 1) < sizeMb <= 2 * p
    ensures var p := PagesNeeded(sizeMb, "1G"); 1024 * (p - 1) < sizeMb <= 1024 * p
  {
  }

  /** VPP keeps its main core, unless that is 0, and its workers. */
  predicate VppKeeps(cfg: Config, x: int) {
    (cfg.mainCore != 0 && x == cfg.mainCore) || x in cfg.workers
  }

  lemma ReservedIsVpp(cfg: Config, x: int)
    ensures x in Reserved(cfg) <==> VppKeeps(cfg, x)
  {
  }

  /** The last declaration of a page size counts. */
  lemma {:induction false} PoolsAreDeclared(pools: seq<Pool>, size: string)
    ensures size in PoolMap(pools) <==> exists i :: 0 <= i < |pools| && pools[i].pageSize == size
    ensures forall i :: 0 <= i < |pools| && pools[i].pageSize == size && (forall j :: i < j < |pools| ==> pools[j].pageSize != size) ==>
      PoolMap(pools)[size] == Usage(pools[i].count, 0, pools[i].count)
  {
    if pools != [] {
      var n := |pools| - 1;
      PoolsAreDeclared(pools[..n], size);
      assert forall j :: 0 <= j < n ==> pools[..n][j] == pools[j];
      if pools[n].pageSize != size {
        assert (exists i :: 0 <= i < n && pools[i].pageSize == size) <==>
          (exists i :: 0 <= i < |pools| && pools[i].pageSize == size);
      }
    }
  }

  /** What the machine's memory is taken from: what it names, else the first pool. */
  predicate TakesFrom(cfg: Config, vm: Vm, size: string) {
    if vm.pageSize != "" || cfg.pools == [] then size == vm.pageSize else size == cfg.pools[0].pageSize
  }

  predicate NeedsPages(vm: Vm) {
    vm.sizeMb > 0 && !vm.normal
  }

  /** A missing pool is reported exactly for the machines that need pages of a size nobody declared. */
  lemma {:induction false} NoPoolUpTo(cfg: Config, vms: seq<Vm>, vm: Vm, size: string)
    requires UniqueVmNames(vms) && vm in vms && TakesFrom(cfg, vm, size)
    ensures NoPool(vm.name) in ServeAll(cfg, vms, Opening(cfg)).errs <==> NeedsPages(vm) && size !in PoolMap(cfg.pools)
  {
    var n := |vms| - 1;
    var b := ServeAll(cfg, vms[..n], Opening(cfg));
    PoolsBalance(cfg, vms[..n]);
    if vm == vms[n] {
      NoPoolFor(cfg, vms[..n], vm);
      NoPoolStep(cfg, vm, b, vm.name);
    } else {
      assert vm in vms[..n];
      NoPoolUpTo(cfg, vms[..n], vm, size);
      NoPoolStep(cfg, vms[n], b, vm.name);
    }
    assert PageSizeOf(cfg, vm) == size;
    hide ServeAll, PoolMap;
  }

  lemma {:induction false} NoPoolFor(cfg: Config, vms: seq<Vm>, vm: Vm)
    requires forall v :: v in vms ==> v.name != vm.name
    ensures NoPool(vm.name) !in ServeAll(cfg, vms, Opening(cfg)).errs
  {
    if vms != [] {
      NoPoolFor(cfg, vms[..|vms| - 1], vm);
      NoPoolStep(cfg, vms[|vms| - 1], ServeAll(cfg, vms[..|vms| - 1], Opening(cfg)), vm.name);
    }
  }

  lemma NoPoolStep(cfg: Config, vm: Vm, b: Books, name: string)
    ensures NoPool(name) in Serve(cfg, vm, b).errs <==>
      NoPool(name) in b.errs || (name == vm.name && NeedsPages(vm) && PageSizeOf(cfg, vm) !in b.pools)
  {
    hide Candidates, OnDeclaredNode, Minus;
  }

  lemma NoPoolExactly(cfg: Config, vm: Vm, size: string)
    requires UniqueVmNames(cfg.vms) && vm in cfg.vms && TakesFrom(cfg, vm, size)
    ensures NoPool(vm.name) in Closing(cfg).errs <==>
      NeedsPages(vm) && forall i :: 0 <= i < |cfg.pools| ==> cfg.pools[i].pageSize != size
  {
    SortVmsFacts(cfg.vms);
    SortedMembers(cfg.vms);
    NameOrderIsUnique(SortVms(cfg.vms));
    NoPoolUpTo(cfg, SortVms(cfg.vms), vm, size);
    PoolsAreDeclared(cfg.pools, size);
  }

  // ---------- the list a machine draws from ----------

  /** The first entry for the machine's NUMA node if it names one that is declared, else the isolated cores. */
  ghost predicate DrawsFrom(cfg: Config, vm: Vm, xs: seq<int>) {
    if forall i :: 0 <= i < |cfg.numa| ==> vm.numaNode != Some(cfg.numa[i].node) then xs == cfg.isolated
    else
      exists i :: 0 <= i < |cfg.numa| && vm.numaNode == Some(cfg.numa[i].node) && xs == cfg.numa[i].cores
        && forall j :: 0 <= j < i ==> vm.numaNode != Some(cfg.numa[j].node)
  }

  lemma {:induction false} FirstEntry(numa: seq<NumaNode>, node: int, i: nat)
    requires i <= |numa| && (i < |numa| ==> numa[i].node == node) && forall j :: 0 <= j < i ==> numa[j].node != node
    ensures FindNode(numa, node) == if i < |numa| then Some(numa[i]) else None
  {
    if i > 0 {
      FirstEntry(numa[1..], node, i - 1);
    }
  }

  lemma {:induction false} CandidatesAre(cfg: Config, vm: Vm, xs: seq<int>)
    requires DrawsFrom(cfg, vm, xs)
    ensures Candidates(cfg, vm) == SortInts(xs)
    ensures OnDeclaredNode(cfg, vm) <==> exists i :: 0 <= i < |cfg.numa| && vm.numaNode == Some(cfg.numa[i].node)
  {
    if forall i :: 0 <= i < |cfg.numa| ==> vm.numaNode != Some(cfg.numa[i].node) {
      if vm.numaNode.Some? {
        FirstEntry(cfg.numa, vm.numaNode.value, |cfg.numa|);
      }
    } else {
      var i :| 0 <= i < |cfg.numa| && vm.numaNode == Some(cfg.numa[i].node) && xs == cfg.numa[i].cores
        && forall j :: 0 <= j < i ==> vm.numaNode != Some(cfg.numa[j].node);
      FirstEntry(cfg.numa, vm.numaNode.value, i);
    }
  }

  // ---------- what is left of a list ----------

  function CountFree(xs: seq<int>, taken: set<int>): nat {
    if xs == [] then 0 else CountFree(xs[..|xs| - 1], taken) + if xs[|xs| - 1] in taken then 0 else 1
  }

  lemma {:induction false} FreeOfConcat(a: seq<int>, c: seq<int>, taken: set<int>)
    ensures CountFree(a + c, taken) == CountFree(a, taken) + CountFree(c, taken)
  {
    if c == [] {
      assert a + c == a;
    } else {
      FreeOfConcat(a, c[..|c| - 1], taken);
      assert (a + c)[..|a| + |c| - 1] == a + c[..|c| - 1];
    }
  }

  lemma {:induction false} FreeOfInsert(x: int, xs: seq<int>, taken: set<int>)
    ensures CountFree(InsertInt(x, xs), taken) == CountFree([x], taken) + CountFree(xs, taken)
  {
    if xs == [] || x < xs[0] {
      FreeOfConcat([x], xs, taken);
    } else {
      FreeOfInsert(x, xs[1..], taken);
      FreeOfConcat([xs[0]], InsertInt(x, xs[1..]), taken);
      FreeOfConcat([xs[0]], xs[1..], taken);
      assert xs == [xs[0]] + xs[1..];
    }
  }

  lemma {:induction false} FreeOfSorted(xs: seq<int>, taken: set<int>)
    ensures CountFree(SortInts(xs), taken) == CountFree(xs, taken)
  {
    if xs != [] {
      FreeOfSorted(xs[..|xs| - 1], taken);
      FreeOfInsert(xs[|xs| - 1], SortInts(xs[..|xs| - 1]), taken);
      assert [xs[|xs| - 1]][..0] == [];
    }
  }

  lemma {:induction false} MinusCount(xs: seq<int>, taken: set<int>)
    ensures |Minus(xs, taken)| == CountFree(xs, taken)
  {
    if xs != [] {
      MinusCount(xs[..|xs| - 1], taken);
    }
  }

  lemma {:induction false} MinusAscends(xs: seq<int>, taken: set<int>)
    requires Ascending(xs)
    ensures Ascending(Minus(xs, taken))
  {
    if xs != [] {
      var n := |xs| - 1;
      MinusAscends(xs[..n], taken);
      MinusMembers(xs[..n], taken);
      var before := Minus(xs[..n], taken);
      AscendsTo(before, xs, n);
    }
  }

  lemma AscendsTo(before: seq<int>, xs: seq<int>, n: nat)
    requires Ascending(before) && Ascending(xs) && n < |xs| && forall x :: x in before ==> x in xs[..n]
    ensures Ascending(before + [xs[n]]) && Ascending(before + [])
  {
    forall i | 0 <= i < |before| ensures before[i] <= xs[n] {
      assert before[i] in before;
    }
  }

  // ---------- one machine ----------

  /** The machine's cores: the lowest that are left of its list, or none if too few are left. */
  predicate LowestOf(got: seq<int>, xs: seq<int>, taken: set<int>, n: int) {
    && (CountFree(xs, taken) < n ==> got == [])
    && (CountFree(xs, taken) >= n ==>
          && |got| == n && Ascending(got)
          && (forall c :: c in got ==> c in xs && c !in taken)
          && (forall c, x :: c in got && x in xs && x < c && x !in taken ==> x in got))
  }

  /** Taking the first of what is left of the sorted list. */
  lemma {:induction false} FirstLeft(xs: seq<int>, taken: set<int>, n: nat)
    requires n > 0
    ensures var avail := Minus(SortInts(xs), taken);
      |avail| == CountFree(xs, taken) && LowestOf(if |avail| < n then [] else avail[..n], xs, taken, n)
  {
    var ys := SortInts(xs);
    FreeOfSorted(xs, taken);
    SortIntsFacts(xs);
    MinusCount(ys, taken);
    MinusAscends(ys, taken);
    MinusMembers(ys, taken);
    assert forall x :: x in ys <==> x in multiset(ys);
    assert forall x :: x in xs <==> x in multiset(xs);
    hide SortInts, Minus, CountFree;
    var avail := Minus(ys, taken);
    if |avail| >= n {
      LowestAreFirst(avail, n);
    }
  }

  lemma TurnOf(cfg: Config, vm: Vm, b: Books, xs: seq<int>)
    requires DrawsFrom(cfg, vm, xs) && vm.vcpus > 0 && vm.pin != Some(false)
    ensures vm.name in CoreStep(cfg, vm, b).cores && LowestOf(CoreStep(cfg, vm, b).cores[vm.name], xs, b.used, vm.vcpus)
  {
    CandidatesAre(cfg, vm, xs);
    FirstLeft(xs, b.used, vm.vcpus);
    hide Candidates, OnDeclaredNode, SortInts, Minus, CountFree, DrawsFrom, LowestOf;
  }

  lemma LowestAreFirst(avail: seq<int>, n: nat)
    requires Ascending(avail) && n <= |avail|
    ensures Ascending(avail[..n])
    ensures forall c, x :: c in avail[..n] && x in avail && x < c ==> x in avail[..n]
  {
    forall c, x | c in avail[..n] && x in avail && x < c ensures x in avail[..n] {
      var i :| 0 <= i < n && avail[i] == c;
      var j :| 0 <= j < |avail| && avail[j] == x;
      assert j < i;
      assert avail[..n][j] == x;
    }
  }

  // ---------- all machines ----------

  /** VPP keeps the core, or a machine that comes earlier in name order got it. */
  ghost predicate TakenBefore(cfg: Config, cores: map<string, seq<int>>, name: string, x: int) {
    || VppKeeps(cfg, x)
    || exists w :: w in cfg.vms && Less(w.name, name) && w.name in cores && x in cores[w.name]
  }

  /** The cores in use are VPP's and those handed out, and only served machines have some. */
  lemma {:induction false} UsedIs(cfg: Config, vms: seq<Vm>)
    requires UniqueVmNames(vms)
    ensures var b := ServeAll(cfg, vms, Opening(cfg));
      b.used == Reserved(cfg) + Assigned(b.cores) && forall n :: n in b.cores ==> NamedIn(n, vms)
  {
    if vms == [] {
      assert Assigned(map[]) == {};
    } else {
      var n := |vms| - 1;
      var b := ServeAll(cfg, vms[..n], Opening(cfg));
      UsedIs(cfg, vms[..n]);
      PageStepGrows(cfg, vms[n], b);
      forall m | m in b.cores ensures m != vms[n].name && NamedIn(m, vms) {
        var i :| 0 <= i < n && vms[..n][i].name == m;
        assert vms[i].name == m;
      }
      assert NamedIn(vms[n].name, vms);
      UsedStep(cfg, vms[n], PageStep(cfg, vms[n], b));
    }
  }

  lemma UsedStep(cfg: Config, vm: Vm, b: Books)
    requires b.used == Reserved(cfg) + Assigned(b.cores) && vm.name !in b.cores
    ensures var c := CoreStep(cfg, vm, b);
      c.used == Reserved(cfg) + Assigned(c.cores) && c.cores.Keys <= b.cores.Keys + {vm.name}
  {
    hide Candidates, OnDeclaredNode, Minus, Reserved;
    if Pinned(vm) {
      var xs := CoreStep(cfg, vm, b).cores[vm.name];
      AssignedGrows(b.cores, vm.name, xs);
      assert Elements<int>([]) == {};
    }
  }

  lemma {:induction false} CoresStay(cfg: Config, vms: seq<Vm>, n: nat, name: string)
    requires n <= |vms| && forall i :: n <= i < |vms| ==> vms[i].name != name
    ensures var b, c := ServeAll(cfg, vms[..n], Opening(cfg)), ServeAll(cfg, vms, Opening(cfg));
      (name in b.cores <==> name in c.cores) && (name in b.cores ==> b.cores[name] == c.cores[name])
    decreases |vms|
  {
    if n == |vms| {
      assert vms[..n] == vms;
    } else {
      var l := |vms| - 1;
      assert vms[..l][..n] == vms[..n];
      CoresStay(cfg, vms[..l], n, name);
      ServeElsewhere(cfg, vms[l], ServeAll(cfg, vms[..l], Opening(cfg)), name);
    }
  }

  /** At a machine's turn, what is in use is what VPP keeps and what the machines before it got. */
  lemma {:induction false} UsedAtTurn(cfg: Config, n: nat, x: int)
    requires UniqueVmNames(cfg.vms) && n < |SortVms(cfg.vms)|
    ensures var s := SortVms(cfg.vms);
      x in ServeAll(cfg, s[..n], Opening(cfg)).used <==> TakenBefore(cfg, Closing(cfg).cores, s[n].name, x)
  {
    var s := SortVms(cfg.vms);
    SortVmsFacts(cfg.vms);
    SortedMembers(cfg.vms);
    NameOrderIsUnique(s);
    UsedIs(cfg, s[..n]);
    ReservedIsVpp(cfg, x);
    var b := ServeAll(cfg, s[..n], Opening(cfg));
    forall i | 0 <= i < n
      ensures (s[i].name in b.cores <==> s[i].name in Closing(cfg).cores)
      ensures s[i].name in b.cores ==> b.cores[s[i].name] == Closing(cfg).cores[s[i].name]
    {
      CoresStay(cfg, s, n, s[i].name);
    }
    EarlierMachines(cfg, s, n, b.cores, Closing(cfg).cores, x);
  }

  lemma EarlierMachines(cfg: Config, s: seq<Vm>, n: nat, before: map<string, seq<int>>, after: map<string, seq<int>>, x: int)
    requires NameOrder(s) && n < |s| && forall v :: v in s <==> v in cfg.vms
    requires forall m :: m in before ==> NamedIn(m, s[..n])
    requires forall i :: 0 <= i < n ==> (s[i].name in before <==> s[i].name in after)
    requires forall i :: 0 <= i < n && s[i].name in before ==> before[s[i].name] == after[s[i].name]
    ensures x in Assigned(before) <==> exists w :: w in cfg.vms && Less(w.name, s[n].name) && w.name in after && x in after[w.name]
  {
    if x in Assigned(before) {
      var m, j :| m in before && 0 <= j < |before[m]| && before[m][j] == x;
      var i :| 0 <= i < n && s[..n][i].name == m;
      assert s[i] in s && Less(s[i].name, s[n].name);
    }
    if w :| w in cfg.vms && Less(w.name, s[n].name) && w.name in after && x in after[w.name] {
      assert w in s;
      var i :| 0 <= i < |s| && s[i] == w;
      LessTotal(w.name, s[n].name);
      assert i < n;
      assert s[i].name in before;
      var j :| 0 <= j < |after[w.name]| && after[w.name][j] == x;
      assert before[w.name][j] == x;
    }
  }

  /**
    The cores of every pinned machine, exactly: the lowest of its list that VPP and the machines
    before it in name order have left, or none if these are too few.
   */
  lemma LowestLeft(cfg: Config, vm: Vm, xs: seq<int>, taken: set<int>)
    requires UniqueVmNames(cfg.vms) && vm in cfg.vms && vm.vcpus > 0 && vm.pin != Some(false)
    requires DrawsFrom(cfg, vm, xs)
    requires forall x :: x in taken <==> TakenBefore(cfg, Closing(cfg).cores, vm.name, x)
    ensures vm.name in Closing(cfg).cores && LowestOf(Closing(cfg).cores[vm.name], xs, taken, vm.vcpus)
  {
    var s := SortVms(cfg.vms);
    SortVmsFacts(cfg.vms);
    SortedMembers(cfg.vms);
    NameOrderIsUnique(s);
    var n :| 0 <= n < |s| && s[n] == vm;
    var b := ServeAll(cfg, s[..n], Opening(cfg));
    hide Serve, LowestOf, TakenBefore, DrawsFrom, SortVms, Opening, NameOrder;
    forall x ensures x in b.used <==> x in taken {
      UsedAtTurn(cfg, n, x);
    }
    assert b.used == taken;
    AtTurn(cfg, s, n);
    hide UniqueVmNames, ServeAll;
    PageStepGrows(cfg, vm, b);
    TurnOf(cfg, vm, PageStep(cfg, vm, b), xs);
    ServeIs(cfg, vm, b);
  }

  /** What a machine has after its turn it has in the end. */
  lemma {:induction false} AtTurn(cfg: Config, s: seq<Vm>, n: nat)
    requires UniqueVmNames(s) && n < |s|
    ensures var b, c := Serve(cfg, s[n], ServeAll(cfg, s[..n], Opening(cfg))), ServeAll(cfg, s, Opening(cfg));
      (s[n].name in b.cores <==> s[n].name in c.cores) && (s[n].name in b.cores ==> b.cores[s[n].name] == c.cores[s[n].name])
  {
    CoresStay(cfg, s, n + 1, s[n].name);
    assert s[..n + 1][..n] == s[..n];
    hide Serve;
  }

  predicate ReportsCores(errs: seq<Shortage>, name: string) {
    exists e :: e in errs && e.CoresShort? && e.vm == name
  }

  lemma ServeReports(cfg: Config, vm: Vm, b: Books, name: string)
    ensures var c := Serve(cfg, vm, b);
      name != vm.name ==> (ReportsCores(c.errs, name) <==> ReportsCores(b.errs, name))
    ensures var c := Serve(cfg, vm, b);
      !ReportsCores(b.errs, vm.name) ==>
        (ReportsCores(c.errs, vm.name) <==> Pinned(vm) && vm.name in c.cores && c.cores[vm.name] == [])
  {
    hide Candidates, Minus, OnDeclaredNode;
    var p := PageStep(cfg, vm, b);
    assert forall n :: ReportsCores(p.errs, n) <==> ReportsCores(b.errs, n) by {
      PageStepGrows(cfg, vm, b);
      assert forall e :: e in p.errs && e.CoresShort? <==> e in b.errs && e.CoresShort?;
    }
    hide PageStep;
    var c := CoreStep(cfg, vm, p);
    CoreStepGrows(cfg, vm, p);
    var more := c.errs[|p.errs|..];
    assert c.errs == p.errs + more;
    assert forall e :: e in c.errs <==> e in p.errs || e in more;
    if more != [] {
      assert more[0] in c.errs;
    }
  }

  lemma {:induction false} ReportsUpTo(cfg: Config, vms: seq<Vm>)
    requires UniqueVmNames(vms)
    ensures var b := ServeAll(cfg, vms, Opening(cfg));
      && (forall n :: ReportsCores(b.errs, n) ==> NamedIn(n, vms))
      && (forall v :: v in vms ==> (ReportsCores(b.errs, v.name) <==> Pinned(v) && v.name in b.cores && b.cores[v.name] == []))
  {
    if vms != [] {
      var n := |vms| - 1;
      var b, c := ServeAll(cfg, vms[..n], Opening(cfg)), ServeAll(cfg, vms, Opening(cfg));
      ReportsUpTo(cfg, vms[..n]);
      hide ReportsCores, Serve;
      forall m | ReportsCores(c.errs, m) ensures NamedIn(m, vms) {
        ServeReports(cfg, vms[n], b, m);
        if m == vms[n].name {
          assert NamedIn(m, vms);
        } else {
          var i :| 0 <= i < n && vms[..n][i].name == m;
          assert vms[i].name == m;
        }
      }
      forall v | v in vms
        ensures ReportsCores(c.errs, v.name) <==> Pinned(v) && v.name in c.cores && c.cores[v.name] == []
      {
        ServeReports(cfg, vms[n], b, v.name);
        if v.name != vms[n].name {
          assert v in vms[..n];
          ServeElsewhere(cfg, vms[n], b, v.name);
        } else {
          var i :| 0 <= i < |vms| && vms[i] == v;
          assert i == n;
        }
      }
    }
  }

  /** A shortage of cores is reported for exactly the pinned machines that got none. */
  lemma {:induction false} ShortCoresExactly(cfg: Config, vm: Vm, xs: seq<int>, taken: set<int>)
    requires UniqueVmNames(cfg.vms) && vm in cfg.vms && vm.vcpus > 0 && vm.pin != Some(false)
    requires DrawsFrom(cfg, vm, xs)
    requires forall x :: x in taken <==> TakenBefore(cfg, Closing(cfg).cores, vm.name, x)
    ensures ReportsCores(Closing(cfg).errs, vm.name) <==> CountFree(xs, taken) < vm.vcpus
  {
    LowestLeft(cfg, vm, xs, taken);
    hide TakenBefore, DrawsFrom, CountFree, Serve, ReportsCores;
    SortVmsFacts(cfg.vms);
    SortedMembers(cfg.vms);
    NameOrderIsUnique(SortVms(cfg.vms));
    ReportsUpTo(cfg, SortVms(cfg.vms));
  }

  lemma Unserved(cfg: Config, vm: Vm, b: Books)
    requires vm.vcpus <= 0 || vm.pin == Some(false)
    ensures Serve(cfg, vm, b).cores == b.cores
  {
    PageStepGrows(cfg, vm, b);
  }

  /** A machine that is not pinned gets no cores. */
  lemma UnpinnedGetsNone(cfg: Config, vm: Vm)
    requires UniqueVmNames(cfg.vms) && vm in cfg.vms && (vm.vcpus <= 0 || vm.pin == Some(false))
    ensures vm.name !in Closing(cfg).cores
  {
    var s := SortVms(cfg.vms);
    SortVmsFacts(cfg.vms);
    SortedMembers(cfg.vms);
    NameOrderIsUnique(s);
    hide Serve, SortVms, Opening;
    NoCoresUpTo(cfg, s, vm);
  }

  lemma {:induction false} NoCoresUpTo(cfg: Config, vms: seq<Vm>, vm: Vm)
    requires UniqueVmNames(vms) && (vm.vcpus <= 0 || vm.pin == Some(false)) && forall v :: v in vms && v.name == vm.name ==> v == vm
    ensures vm.name !in ServeAll(cfg, vms, Opening(cfg)).cores
  {
    if vms != [] {
      var n := |vms| - 1;
      var b := ServeAll(cfg, vms[..n], Opening(cfg));
      NoCoresUpTo(cfg, vms[..n], vm);
      hide Serve;
      if vms[n] == vm {
        Unserved(cfg, vm, b);
      } else {
        ServeElsewhere(cfg, vms[n], b, vm.name);
      }
    }
  }

  function CoresOf(cfg: Config, vm: Vm): seq<int> {
    if vm.vcpus > 0 && vm.pin != Some(false) && vm.name in Closing(cfg).cores then Closing(cfg).cores[vm.name] else []
  }

  /** What the orchestrator is told for one machine: nothing unless the whole configuration fits. */
  lemma AllocationIs(cfg: Config, vm: Vm, size: string)
    requires UniqueVmNames(cfg.vms) && vm in cfg.vms && TakesFrom(cfg, vm, size)
    ensures AllocationFor(cfg, vm) ==
      if Closing(cfg).errs != [] then Allocation([], "")
      else Allocation(CoresOf(cfg, vm), if vm.normal then "" else size)
  {
    if vm.vcpus <= 0 || vm.pin == Some(false) {
      UnpinnedGetsNone(cfg, vm);
    } else {
      SortVmsFacts(cfg.vms);
      SortedMembers(cfg.vms);
      NameOrderIsUnique(SortVms(cfg.vms));
      ServedHasCores(cfg, SortVms(cfg.vms), vm);
    }
  }

  lemma {:induction false} ServedHasCores(cfg: Config, vms: seq<Vm>, vm: Vm)
    requires vm in vms && Pinned(vm)
    ensures vm.name in ServeAll(cfg, vms, Opening(cfg)).cores
  {
    var n := |vms| - 1;
    var b := ServeAll(cfg, vms[..n], Opening(cfg));
    PageStepGrows(cfg, vms[n], b);
    if vm != vms[n] {
      assert vm in vms[..n];
      ServedHasCores(cfg, vms[..n], vm);
    }
    hide Candidates, Minus, PageStep;
  }

  // ---------- what is reported ----------

  /** The report names the machine and says what it needs and that less was there. */
  predicate TrueFor(cfg: Config, vm: Vm, e: Shortage) {
    && vm.name == e.vm
    && match e
       case NoPool(_) => NeedsPages(vm)
       case PagesShort(_, size, need, free) =>
         NeedsPages(vm) && TakesFrom(cfg, vm, size) && need == PagesNeeded(vm.sizeMb, size) && free < need
       case CoresShort(_, node, need, available) =>
         && vm.vcpus > 0 && vm.pin != Some(false) && need == vm.vcpus && available < need
         && node == if NamesDeclaredNode(cfg, vm) then vm.numaNode else None
  }

  predicate NamesDeclaredNode(cfg: Config, vm: Vm) {
    exists i :: 0 <= i < |cfg.numa| && vm.numaNode == Some(cfg.numa[i].node)
  }

  predicate Truthful(cfg: Config, vms: seq<Vm>, e: Shortage) {
    exists vm :: vm in vms && TrueFor(cfg, vm, e)
  }

  lemma {:induction false} NodeDeclared(numa: seq<NumaNode>, node: int)
    ensures FindNode(numa, node).Some? <==> exists i :: 0 <= i < |numa| && numa[i].node == node
  {
    if numa != [] {
      NodeDeclared(numa[1..], node);
      if i :| 0 <= i < |numa| && numa[i].node == node {
        assert i > 0 ==> numa[1..][i - 1].node == node;
      }
      if i :| 0 <= i < |numa[1..]| && numa[1..][i].node == node {
        assert numa[i + 1].node == node;
      }
    }
  }

  lemma NodeNamed(cfg: Config, vm: Vm)
    ensures OnDeclaredNode(cfg, vm) <==> NamesDeclaredNode(cfg, vm)
  {
    if vm.numaNode.Some? {
      NodeDeclared(cfg.numa, vm.numaNode.value);
    }
  }

  lemma StepTruthful(cfg: Config, vm: Vm, b: Books)
    ensures forall e :: e in Serve(cfg, vm, b).errs ==> e in b.errs || TrueFor(cfg, vm, e)
  {
    NodeNamed(cfg, vm);
    var p := PageStep(cfg, vm, b);
    assert forall e :: e in p.errs ==> e in b.errs || TrueFor(cfg, vm, e);
    hide PageStep, Candidates, Minus, OnDeclaredNode, NamesDeclaredNode;
    assert forall e :: e in CoreStep(cfg, vm, p).errs ==> e in p.errs || TrueFor(cfg, vm, e);
  }

  lemma {:induction false} TruthfulUpTo(cfg: Config, vms: seq<Vm>, n: nat)
    requires n <= |vms|
    ensures forall e :: e in ServeAll(cfg, vms[..n], Opening(cfg)).errs ==> Truthful(cfg, vms, e)
  {
    if n > 0 {
      TruthfulUpTo(cfg, vms, n - 1);
      assert vms[..n][..n - 1] == vms[..n - 1];
      StepTruthful(cfg, vms[n - 1], ServeAll(cfg, vms[..n - 1], Opening(cfg)));
      hide TrueFor, Serve;
    }
  }

  /** Every shortage that is reported is one. */
  lemma ReportsAreTrue(cfg: Config, e: Shortage)
    requires e in Closing(cfg).errs
    ensures Truthful(cfg, cfg.vms, e)
  {
    var s := SortVms(cfg.vms);
    TruthfulUpTo(cfg, s, |s|);
    assert s[..|s|] == s;
    SortedMembers(cfg.vms);
    hide TrueFor, Closing;
  }
}
