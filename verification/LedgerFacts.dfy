/**
  What the ledger guarantees: exactness, disjointness, independence of the order in which
  machines are listed, and monotonicity when one is removed.
 */
module LedgerFacts {
  import opened Ordering
  import opened Ledger

  // ---------- name order ----------

  predicate UniqueVmNames(vms: seq<Vm>) {
    forall i, j :: 0 <= i < j < |vms| ==> vms[i].name != vms[j].name
  }

  predicate NameOrder(vms: seq<Vm>) {
    forall i, j :: 0 <= i < j < |vms| ==> Less(vms[i].name, vms[j].name)
  }

  lemma {:induction false} InsertVmMembers(vm: Vm, vms: seq<Vm>)
    ensures multiset(InsertVm(vm, vms)) == multiset(vms) + multiset{vm}
    ensures forall v :: v in InsertVm(vm, vms) ==> v == vm || v in vms
  {
    if vms != [] && !Less(vm.name, vms[0].name) {
      InsertVmMembers(vm, vms[1..]);
      assert vms == [vms[0]] + vms[1..];
    }
  }

  lemma {:induction false} InsertVmOrder(vm: Vm, vms: seq<Vm>)
    requires NameOrder(vms) && forall v :: v in vms ==> v.name != vm.name
    ensures NameOrder(InsertVm(vm, vms))
  {
    if vms != [] {
      var r := InsertVm(vm, vms);
      if Less(vm.name, vms[0].name) {
        forall j | 0 < j < |r| ensures Less(r[0].name, r[j].name) {
          if j > 1 {
            LessTransitive(vm.name, vms[0].name, vms[j - 1].name);
          }
        }
      } else {
        LessTotal(vm.name, vms[0].name);
        assert vms[0] in vms;
        var t := InsertVm(vm, vms[1..]);
        InsertVmOrder(vm, vms[1..]);
        InsertVmMembers(vm, vms[1..]);
        assert forall v :: v in t ==> Less(vms[0].name, v.name);
        assert forall j :: 0 <= j < |t| ==> t[j] in t;
      }
    }
  }

  lemma {:induction false} SortVmsFacts(vms: seq<Vm>)
    ensures multiset(SortVms(vms)) == multiset(vms)
    ensures UniqueVmNames(vms) ==> NameOrder(SortVms(vms))
  {
    if vms != [] {
      var n := |vms| - 1;
      SortVmsFacts(vms[..n]);
      InsertVmMembers(vms[n], SortVms(vms[..n]));
      assert vms == vms[..n] + [vms[n]];
      if UniqueVmNames(vms) {
        forall v | v in SortVms(vms[..n]) ensures v.name != vms[n].name {
          assert v in multiset(SortVms(vms[..n]));
          assert v in vms[..n];
        }
        InsertVmOrder(vms[n], SortVms(vms[..n]));
      }
    }
  }

  lemma HeadsAgree(a: seq<Vm>, b: seq<Vm>)
    requires a != [] && b != [] && NameOrder(a) && NameOrder(b) && a[0] in b && b[0] in a
    ensures a[0] == b[0]
  {
    var i :| 0 <= i < |a| && a[i] == b[0];
    var j :| 0 <= j < |b| && b[j] == a[0];
    if i > 0 && j > 0 {
      LessTotal(a[0].name, b[0].name);
    }
  }

  /** Two lists in name order with the same machines are the same list. */
  lemma {:induction false} OrderIsUnique(a: seq<Vm>, b: seq<Vm>)
    requires NameOrder(a) && NameOrder(b) && multiset(a) == multiset(b)
    ensures a == b
  {
    SameLength(a, b);
    if a != [] {
      assert a[0] in multiset(a) && b[0] in multiset(b);
      HeadsAgree(a, b);
      SameTails(a, b);
      OrderIsUnique(a[1..], b[1..]);
      assert a == [a[0]] + a[1..] && b == [b[0]] + b[1..];
    }
  }

  lemma SameLength(a: seq<Vm>, b: seq<Vm>)
    requires multiset(a) == multiset(b)
    ensures |a| == |b|
  {
    assert |multiset(a)| == |a| && |multiset(b)| == |b|;
  }

  lemma SameTails(a: seq<Vm>, b: seq<Vm>)
    requires a != [] && b != [] && a[0] == b[0] && multiset(a) == multiset(b)
    ensures multiset(a[1..]) == multiset(b[1..])
  {
    assert a == [a[0]] + a[1..] && b == [b[0]] + b[1..];
    assert multiset(a) == multiset(a[1..]) + multiset{a[0]};
    assert multiset(b) == multiset(b[1..]) + multiset{a[0]};
    SameRemainder(multiset(a[1..]), multiset(b[1..]), a[0]);
  }

  // ---------- serving does not look at the machine list ----------

  lemma {:induction false} SameHardware(cfg: Config, other: seq<Vm>, vms: seq<Vm>, b: Books)
    ensures ServeAll(cfg.(vms := other), vms, b) == ServeAll(cfg, vms, b)
    ensures Opening(cfg.(vms := other)) == Opening(cfg)
  {
    hide Serve, PoolMap, Reserved;
    SameOpening(cfg, other);
    if vms != [] {
      SameHardware(cfg, other, vms[..|vms| - 1], b);
      SameServe(cfg, other, vms[|vms| - 1], ServeAll(cfg, vms[..|vms| - 1], b));
    }
  }

  lemma SameOpening(cfg: Config, other: seq<Vm>)
    ensures Opening(cfg.(vms := other)) == Opening(cfg)
  {
  }

  lemma SameServe(cfg: Config, other: seq<Vm>, vm: Vm, b: Books)
    ensures Serve(cfg.(vms := other), vm, b) == Serve(cfg, vm, b)
  {
    SameSteps(cfg, other, vm, b);
    SameSteps(cfg, other, vm, PageStep(cfg, vm, b));
    hide PageStep, CoreStep;
  }

  lemma SameSteps(cfg: Config, other: seq<Vm>, vm: Vm, b: Books)
    ensures PageStep(cfg.(vms := other), vm, b) == PageStep(cfg, vm, b)
    ensures CoreStep(cfg.(vms := other), vm, b) == CoreStep(cfg, vm, b)
  {
    hide Minus, FindNode, SortInts, PagesNeeded;
    assert Candidates(cfg.(vms := other), vm) == Candidates(cfg, vm);
    assert OnDeclaredNode(cfg.(vms := other), vm) == OnDeclaredNode(cfg, vm);
    assert PageSizeOf(cfg.(vms := other), vm) == PageSizeOf(cfg, vm);
    hide Candidates, OnDeclaredNode, PageSizeOf;
  }

  lemma {:induction false} ServeAppend(cfg: Config, a: seq<Vm>, c: seq<Vm>, b: Books)
    ensures ServeAll(cfg, a + c, b) == ServeAll(cfg, c, ServeAll(cfg, a, b))
  {
    if c == [] {
      assert a + c == a;
    } else {
      var n := |c| - 1;
      ServeAppend(cfg, a, c[..n], b);
      assert (a + c)[..|a| + n] == a + c[..n];
    }
  }

  // ---------- permutations and additions ----------

  /** The outcome does not depend on the order in which the machines are listed. */
  lemma PermutationInvariant(cfg: Config, vms: seq<Vm>)
    requires UniqueVmNames(cfg.vms) && multiset(vms) == multiset(cfg.vms) && UniqueVmNames(vms)
    ensures Closing(cfg.(vms := vms)) == Closing(cfg)
  {
    SortVmsFacts(vms);
    SortVmsFacts(cfg.vms);
    OrderIsUnique(SortVms(vms), SortVms(cfg.vms));
    SameHardware(cfg, vms, SortVms(vms), Opening(cfg));
  }

  lemma {:induction false} InsertAtEnd(vm: Vm, vms: seq<Vm>)
    requires forall v :: v in vms ==> Less(v.name, vm.name)
    ensures InsertVm(vm, vms) == vms + [vm]
  {
    if vms != [] {
      assert vms[0] in vms;
      LessTotal(vm.name, vms[0].name);
      InsertAtEnd(vm, vms[1..]);
    }
  }

  /** A machine that sorts last changes nothing for the others. */
  lemma LastMachineDisturbsNobody(cfg: Config, vm: Vm, name: string)
    requires forall v :: v in cfg.vms ==> Less(v.name, vm.name)
    requires name != vm.name
    ensures var b, c := Closing(cfg), Closing(cfg.(vms := cfg.vms + [vm]));
      && (name in b.cores <==> name in c.cores) && (name in b.cores ==> b.cores[name] == c.cores[name])
      && b.errs <= c.errs
  {
    var more := cfg.vms + [vm];
    SortedLast(cfg.vms, vm);
    hide SortVms, Serve, Opening;
    var s := SortVms(cfg.vms);
    SameHardware(cfg, more, s + [vm], Opening(cfg));
    assert (s + [vm])[..|s|] == s;
    ServeElsewhere(cfg, vm, ServeAll(cfg, s, Opening(cfg)), name);
  }

  lemma {:induction false} SortedLast(vms: seq<Vm>, vm: Vm)
    requires forall v :: v in vms ==> Less(v.name, vm.name)
    ensures SortVms(vms + [vm]) == SortVms(vms) + [vm]
  {
    SortVmsFacts(vms);
    forall v | v in SortVms(vms) ensures Less(v.name, vm.name) {
      assert v in multiset(SortVms(vms));
      assert v in vms;
    }
    InsertAtEnd(vm, SortVms(vms));
    assert (vms + [vm])[..|vms|] == vms;
  }

  lemma ServeElsewhere(cfg: Config, vm: Vm, b: Books, name: string)
    requires name != vm.name
    ensures var c := Serve(cfg, vm, b);
      (name in c.cores <==> name in b.cores) && (name in b.cores ==> c.cores[name] == b.cores[name]) && b.errs <= c.errs
  {
    PageStepGrows(cfg, vm, b);
    CoreStepGrows(cfg, vm, PageStep(cfg, vm, b));
  }

  lemma AllocationIsStable(cfg: Config, vm: Vm, earlier: Vm)
    requires forall v :: v in cfg.vms ==> Less(v.name, vm.name)
    requires earlier.name != vm.name && Admitted(cfg.(vms := cfg.vms + [vm]))
    ensures AllocationFor(cfg.(vms := cfg.vms + [vm]), earlier) == AllocationFor(cfg, earlier)
  {
    LastMachineDisturbsNobody(cfg, vm, earlier.name);
  }

  // ---------- removing a machine ----------

  function Take(xs: seq<int>, n: nat): seq<int> {
    if n < |xs| then xs[..n] else xs
  }

  /** With fewer cores used, the lowest free ones are cores that were taken before or would be taken anyway. */
  lemma {:induction false} LowestFree(xs: seq<int>, less: set<int>, more: set<int>, n: nat)
    requires less <= more
    ensures |Minus(xs, more)| <= |Minus(xs, less)|
    ensures Elements(Take(Minus(xs, less), n)) <= more + Elements(Take(Minus(xs, more), n))
  {
    if xs != [] {
      var l, init := xs[|xs| - 1], xs[..|xs| - 1];
      var a, b := Minus(init, less), Minus(init, more);
      LowestFree(init, less, more, n);
      LowestFree(init, less, more, |a|);
      assert Elements(a) <= more + Elements(b);
      assert l !in less ==> Minus(xs, less) == a + [l];
      assert l !in more ==> Minus(xs, more) == b + [l];
      TakeOfSnoc(b, l, n);
      TakeOfSnoc(a, l, n);
      var m := Minus(xs, more);
      assert m == if l in more then b else b + [l] by { assert b + [] == b; }
      assert Minus(xs, less) == if l in less then a else a + [l] by { assert a + [] == a; }
      if n <= |a| {
        assert Take(Minus(xs, less), n) == Take(a, n);
        assert Elements(Take(b, n)) <= Elements(Take(m, n));
      } else {
        assert Take(m, n) == m && Take(Minus(xs, less), n) == Minus(xs, less);
        ElementsSnoc(a, l);
        ElementsSnoc(b, l);
      }
    }
  }

  lemma TakeOfSnoc(xs: seq<int>, x: int, n: nat)
    ensures n <= |xs| ==> Take(xs + [x], n) == Take(xs, n)
    ensures Elements(Take(xs, n)) <= Elements(Take(xs + [x], n))
  {
    forall y | y in Take(xs, n) ensures y in Take(xs + [x], n) {
      var i :| 0 <= i < |Take(xs, n)| && Take(xs, n)[i] == y;
      assert Take(xs + [x], n)[i] == y;
    }
  }

  /** The second books are at least as good as the first. */
  predicate NoWorse(b: Books, c: Books) {
    && c.used <= b.used
    && c.pools.Keys == b.pools.Keys
    && (forall s :: s in b.pools ==> c.pools[s].free >= b.pools[s].free)
    && (b.errs == [] ==> c.errs == [])
  }

  lemma PagesAreNonNegative(sizeMb: int, pageSize: string)
    requires sizeMb > 0
    ensures PagesNeeded(sizeMb, pageSize) >= 0
  {
  }

  lemma ServeNoWorse(cfg: Config, vm: Vm, b: Books, c: Books)
    requires NoWorse(b, c) && Serve(cfg, vm, b).errs == []
    ensures NoWorse(Serve(cfg, vm, b), Serve(cfg, vm, c))
  {
    PageStepGrows(cfg, vm, b);
    CoreStepGrows(cfg, vm, PageStep(cfg, vm, b));
    PageStepNoWorse(cfg, vm, b, c);
    hide *;
    CoreStepNoWorse(cfg, vm, PageStep(cfg, vm, b), PageStep(cfg, vm, c));
    ServeIs(cfg, vm, b);
    ServeIs(cfg, vm, c);
  }

  lemma ServeIs(cfg: Config, vm: Vm, b: Books)
    ensures Serve(cfg, vm, b) == CoreStep(cfg, vm, PageStep(cfg, vm, b))
  {
  }

  lemma PageStepNoWorse(cfg: Config, vm: Vm, b: Books, c: Books)
    requires NoWorse(b, c) && PageStep(cfg, vm, b).errs == []
    ensures NoWorse(PageStep(cfg, vm, b), PageStep(cfg, vm, c))
  {
    PageStepGrows(cfg, vm, b);
  }

  lemma CoreStepNoWorse(cfg: Config, vm: Vm, b: Books, c: Books)
    requires NoWorse(b, c) && CoreStep(cfg, vm, b).errs == []
    ensures NoWorse(CoreStep(cfg, vm, b), CoreStep(cfg, vm, c))
  {
    CoreStepGrows(cfg, vm, b);
    hide Candidates, Minus, OnDeclaredNode;
    if Pinned(vm) {
      LowestFree(Candidates(cfg, vm), c.used, b.used, vm.vcpus);
      var less, more := Minus(Candidates(cfg, vm), c.used), Minus(Candidates(cfg, vm), b.used);
      assert Take(less, vm.vcpus) == less[..vm.vcpus] && Take(more, vm.vcpus) == more[..vm.vcpus];
    }
  }

  lemma PageStepGrows(cfg: Config, vm: Vm, b: Books)
    ensures b.errs <= PageStep(cfg, vm, b).errs && PageStep(cfg, vm, b).used == b.used && PageStep(cfg, vm, b).cores == b.cores
  {
  }

  lemma CoreStepGrows(cfg: Config, vm: Vm, b: Books)
    ensures b.errs <= CoreStep(cfg, vm, b).errs && CoreStep(cfg, vm, b).pools == b.pools && b.used <= CoreStep(cfg, vm, b).used
  {
  }

  lemma {:induction false} ServeAllGrows(cfg: Config, vms: seq<Vm>, b: Books)
    ensures b.errs <= ServeAll(cfg, vms, b).errs
  {
    if vms != [] {
      ServeAllGrows(cfg, vms[..|vms| - 1], b);
      var c := ServeAll(cfg, vms[..|vms| - 1], b);
      PageStepGrows(cfg, vms[|vms| - 1], c);
      CoreStepGrows(cfg, vms[|vms| - 1], PageStep(cfg, vms[|vms| - 1], c));
    }
  }

  lemma {:induction false} ServeAllNoWorse(cfg: Config, vms: seq<Vm>, b: Books, c: Books)
    requires NoWorse(b, c) && ServeAll(cfg, vms, b).errs == []
    ensures NoWorse(ServeAll(cfg, vms, b), ServeAll(cfg, vms, c))
  {
    if vms != [] {
      var init, vm := vms[..|vms| - 1], vms[|vms| - 1];
      PageStepGrows(cfg, vm, ServeAll(cfg, init, b));
      CoreStepGrows(cfg, vm, PageStep(cfg, vm, ServeAll(cfg, init, b)));
      ServeAllNoWorse(cfg, init, b, c);
      ServeNoWorse(cfg, vm, ServeAll(cfg, init, b), ServeAll(cfg, init, c));
    }
  }

  lemma SkippingIsNoWorse(cfg: Config, vm: Vm, b: Books)
    requires Serve(cfg, vm, b).errs == []
    ensures NoWorse(Serve(cfg, vm, b), b)
  {
    PageStepGrows(cfg, vm, b);
    CoreStepGrows(cfg, vm, PageStep(cfg, vm, b));
  }

  /** If a configuration fits, it still fits without any one of its machines, and uses no core it did not use before. */
  lemma RemovalKeepsAdmission(cfg: Config, i: nat)
    requires UniqueVmNames(cfg.vms) && i < |cfg.vms| && Admitted(cfg)
    ensures var smaller := cfg.(vms := cfg.vms[..i] + cfg.vms[i + 1..]);
      Admitted(smaller) && Closing(smaller).used <= Closing(cfg).used
  {
    var rest := cfg.vms[..i] + cfg.vms[i + 1..];
    var v := cfg.vms[i];
    var before, after := SplitAt(cfg.vms, i);
    hide SortVms, Serve, Opening, UniqueVmNames;
    SameHardware(cfg, rest, before + after, Opening(cfg));
    var b := ServeAll(cfg, before, Opening(cfg));
    ServeAppend(cfg, before, after, Opening(cfg));
    ServeAppend(cfg, before + [v], after, Opening(cfg));
    assert (before + [v])[..|before|] == before;
    ServeAllGrows(cfg, after, Serve(cfg, v, b));
    SkippingIsNoWorse(cfg, v, b);
    ServeAllNoWorse(cfg, after, Serve(cfg, v, b), b);
  }

  /** Taking one machine out of the list takes it out of the sorted list. */
  lemma SplitAt(vms: seq<Vm>, i: nat) returns (before: seq<Vm>, after: seq<Vm>)
    requires UniqueVmNames(vms) && i < |vms|
    ensures SortVms(vms) == (before + [vms[i]]) + after
    ensures SortVms(vms[..i] + vms[i + 1..]) == before + after
  {
    var v, s := vms[i], SortVms(vms);
    SortVmsFacts(vms);
    assert v in multiset(s);
    var j :| 0 <= j < |s| && s[j] == v;
    before, after := s[..j], s[j + 1..];
    assert s == (before + [v]) + after;
    SortedRest(vms, i, before, after);
  }

  lemma SortedRest(vms: seq<Vm>, i: nat, before: seq<Vm>, after: seq<Vm>)
    requires UniqueVmNames(vms) && i < |vms| && NameOrder((before + [vms[i]]) + after)
    requires multiset((before + [vms[i]]) + after) == multiset(vms)
    ensures SortVms(vms[..i] + vms[i + 1..]) == before + after
  {
    var rest, v := vms[..i] + vms[i + 1..], vms[i];
    var s := (before + [v]) + after;
    forall x, y | 0 <= x < y < |before + after| ensures Less((before + after)[x].name, (before + after)[y].name) {
      var x', y' := if x < |before| then x else x + 1, if y < |before| then y else y + 1;
      assert (before + after)[x] == s[x'] && (before + after)[y] == s[y'];
    }
    CountWithout(vms, i);
    assert multiset(before + after) + multiset{v} == multiset(s);
    SameRemainder(multiset(before + after), multiset(rest), v);
    SortVmsFacts(rest);
    OrderIsUnique(SortVms(rest), before + after);
  }

  lemma CountWithout(vms: seq<Vm>, i: nat)
    requires i < |vms|
    ensures multiset(vms[..i] + vms[i + 1..]) + multiset{vms[i]} == multiset(vms)
    ensures UniqueVmNames(vms) ==> UniqueVmNames(vms[..i] + vms[i + 1..])
  {
    assert vms == (vms[..i] + [vms[i]]) + vms[i + 1..];
  }

  lemma SameRemainder(a: multiset<Vm>, b: multiset<Vm>, v: Vm)
    requires a + multiset{v} == b + multiset{v}
    ensures a == b
  {
    assert a == (a + multiset{v}) - multiset{v};
  }
}
