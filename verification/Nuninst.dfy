/** The table of uninstallable packages, compiled from scratch or brought up to date by rechecking. */
module Nuninsts {
  import opened Universes
  import opened Transactions
  import opened Changes

  type Binaries = map<BinaryKey, PackageId>

  /** Names of uninstallable packages by architecture; `withAll` is the part stored under
      architecture + "+all", which always covers arch:all packages. */
  datatype Nuninst = Nuninst(archs: map<string, set<string>>, withAll: map<string, set<string>>)

  // ---------------------------------------------------------------------------------------------
  // What the table should say
  // ---------------------------------------------------------------------------------------------

  ghost predicate Bad(u: Universe, binaries: Binaries, k: BinaryKey) {
    k in binaries && !Installable(u, binaries.Values, binaries[k])
  }

  /** arch:all packages count on the architectures of `nobreakall` only. */
  predicate Counted(data: Packages, nobreakall: set<string>, binaries: Binaries, k: BinaryKey) {
    k in binaries && (k.architecture in nobreakall || !IsArchAll(data, binaries[k]))
  }

  predicate Covers(n: Nuninst, archs: set<string>) {
    forall a :: a in archs ==> a in n.archs && a in n.withAll
  }

  ghost predicate AllAgreeOn(u: Universe, binaries: Binaries, n: Nuninst, arch: string)
    requires arch in n.withAll
  {
    forall name :: name in n.withAll[arch] <==> Bad(u, binaries, BinaryKey(name, arch))
  }

  ghost predicate CountAgreesOn(u: Universe, data: Packages, nobreakall: set<string>, binaries: Binaries, n: Nuninst,
                                arch: string)
    requires arch in n.archs
  {
    forall name :: name in n.archs[arch] <==>
      Bad(u, binaries, BinaryKey(name, arch)) && Counted(data, nobreakall, binaries, BinaryKey(name, arch))
  }

  /** The table says of every package of these architectures whether it is installable. */
  ghost predicate AllAgree(u: Universe, binaries: Binaries, n: Nuninst, archs: set<string>) {
    Covers(n, archs) && forall a :: a in archs ==> AllAgreeOn(u, binaries, n, a)
  }

  ghost predicate Agrees(u: Universe, data: Packages, nobreakall: set<string>, binaries: Binaries, n: Nuninst,
                         archs: set<string>) {
    && AllAgree(u, binaries, n, archs)
    && forall a :: a in archs ==> CountAgreesOn(u, data, nobreakall, binaries, n, a)
  }

  /** There are no essential packages, and the installability test is always right. */
  ghost predicate Reliable(u: Universe, inst: (set<PackageId>, PackageId) -> bool) {
    u.essential == {} && Exact(u, inst)
  }

  /** The answers `test` are right for `suite`. */
  ghost predicate Right(u: Universe, suite: set<PackageId>, test: PackageId -> bool) {
    forall p {:trigger test(p)} :: p in suite ==> (test(p) <==> Installable(u, suite, p))
  }

  /** An installability test that is always right. */
  ghost predicate Exact(u: Universe, inst: (set<PackageId>, PackageId) -> bool) {
    forall suite, p {:trigger inst(suite, p)} :: p in suite ==> (inst(suite, p) <==> Installable(u, suite, p))
  }

  // ---------------------------------------------------------------------------------------------
  // From scratch
  // ---------------------------------------------------------------------------------------------

  /** The table says which binaries fail the test; with right answers it is the right table. */
  method CompileNuninst(u: Universe, data: Packages, test: PackageId -> bool, binaries: Binaries,
                        architectures: set<string>, nobreakall: set<string>) returns (n: Nuninst)
    ensures n.archs.Keys == n.withAll.Keys == architectures
    ensures forall a :: a in architectures ==> Failing(test, data, nobreakall, binaries, n, a)
    ensures Right(u, binaries.Values, test) ==> Agrees(u, data, nobreakall, binaries, n, architectures)
  {
    n := Nuninst(map[], map[]);
    var rest := architectures;
    while rest != {}
      invariant rest <= architectures && n.archs.Keys == n.withAll.Keys == architectures - rest
      invariant forall a :: a in architectures - rest ==> Failing(test, data, nobreakall, binaries, n, a)
    {
      var arch :| arch in rest;
      rest := rest - {arch};
      var all := CompileArch(test, binaries, arch);
      var counted := all;
      if arch !in nobreakall {
        counted := DropArchAll(data, binaries, arch, all);
      }
      n := Nuninst(n.archs[arch := counted], n.withAll[arch := all]);
    }
    if Right(u, binaries.Values, test) {
      forall a | a in architectures
        ensures AllAgreeOn(u, binaries, n, a) && CountAgreesOn(u, data, nobreakall, binaries, n, a)
      {
        FailingAgrees(u, test, data, nobreakall, binaries, n, a);
      }
    }
  }

  /** The table holds the binaries of one architecture that fail the test. */
  predicate Failing(test: PackageId -> bool, data: Packages, nobreakall: set<string>, binaries: Binaries, n: Nuninst, arch: string)
  {
    && arch in n.archs && arch in n.withAll
    && n.withAll[arch] == (set k | k in binaries && k.architecture == arch && !test(binaries[k]) :: k.name)
    && n.archs[arch] == (set k | k in binaries && k.architecture == arch && !test(binaries[k]) && Counted(data, nobreakall, binaries, k) :: k.name)
  }

  lemma FailingAgrees(u: Universe, test: PackageId -> bool, data: Packages, nobreakall: set<string>, binaries: Binaries,
                      n: Nuninst, arch: string)
    requires Right(u, binaries.Values, test) && Failing(test, data, nobreakall, binaries, n, arch)
    ensures AllAgreeOn(u, binaries, n, arch) && CountAgreesOn(u, data, nobreakall, binaries, n, arch)
  {
    forall name
      ensures var k := BinaryKey(name, arch); k in binaries ==> (test(binaries[k]) <==> Installable(u, binaries.Values, binaries[k]))
    {
    }
    forall k: BinaryKey | k.architecture == arch
      ensures k == BinaryKey(k.name, arch)
    {
    }
  }

  method CompileArch(test: PackageId -> bool, binaries: Binaries, arch: string) returns (bad: set<string>)
    ensures bad == set k | k in binaries && k.architecture == arch && !test(binaries[k]) :: k.name
  {
    bad := {};
    var all := set k | k in binaries && k.architecture == arch;
    var rest := all;
    while rest != {}
      invariant rest <= all
      invariant bad == set k | k in all - rest && !test(binaries[k]) :: k.name
    {
      var k :| k in rest;
      assert all - (rest - {k}) == all - rest + {k};
      rest := rest - {k};
      if !test(binaries[k]) {
        bad := bad + {k.name};
      }
    }
  }

  method DropArchAll(data: Packages, binaries: Binaries, arch: string, all: set<string>) returns (counted: set<string>)
    requires forall name :: name in all ==> BinaryKey(name, arch) in binaries
    ensures forall name :: name in counted <==> name in all && !IsArchAll(data, binaries[BinaryKey(name, arch)])
  {
    counted := all;
    var rest := all;
    while rest != {}
      invariant rest <= all
      invariant forall name :: name in counted <==>
        name in all && (name in rest || !IsArchAll(data, binaries[BinaryKey(name, arch)]))
    {
      var name :| name in rest;
      rest := rest - {name};
      if IsArchAll(data, binaries[BinaryKey(name, arch)]) {
        counted := counted - {name};
      }
    }
  }

  // ---------------------------------------------------------------------------------------------
  // Bringing a table up to date
  // ---------------------------------------------------------------------------------------------

  /** Copy the table; for the given architectures, forget the names that are no longer in the suite. */
  method CloneNuninst(n0: Nuninst, binaries: Binaries, archs: set<string>) returns (n: Nuninst)
    requires Covers(n0, archs)
    ensures n.archs.Keys == n0.archs.Keys && n.withAll.Keys == n0.withAll.Keys
    ensures forall a, name :: a in n.archs ==>
      (name in n.archs[a] <==> name in n0.archs[a] && (a in archs ==> BinaryKey(name, a) in binaries))
    ensures forall a, name :: a in n.withAll ==>
      (name in n.withAll[a] <==> name in n0.withAll[a] && (a in archs ==> BinaryKey(name, a) in binaries))
  {
    n := n0;
    var rest := archs;
    while rest != {}
      invariant rest <= archs && n.archs.Keys == n0.archs.Keys && n.withAll.Keys == n0.withAll.Keys
      invariant forall a, name :: a in n.archs ==>
        (name in n.archs[a] <==> name in n0.archs[a] && (a in archs - rest ==> BinaryKey(name, a) in binaries))
      invariant forall a, name :: a in n.withAll ==>
        (name in n.withAll[a] <==> name in n0.withAll[a] && (a in archs - rest ==> BinaryKey(name, a) in binaries))
    {
      var arch :| arch in rest;
      rest := rest - {arch};
      n := Nuninst(
        n.archs[arch := set name | name in n0.archs[arch] && BinaryKey(name, arch) in binaries],
        n.withAll[arch := set name | name in n0.withAll[arch] && BinaryKey(name, arch) in binaries]);
    }
  }

  /** Record the outcome of one test in `broken` and, when asked to, in `nuninst`. */
  method TestInstallability(installable: bool, name: string, broken0: set<string>, nuninst0: Option<set<string>>)
    returns (broken: set<string>, nuninst: Option<set<string>>, change: int)
    ensures broken == if installable then broken0 - {name} else broken0 + {name}
    ensures nuninst.Some? <==> nuninst0.Some?
    ensures nuninst.Some? ==>
      nuninst.value == if installable then nuninst0.value - {name} else nuninst0.value + {name}
    ensures change == |broken0| - |broken|
  {
    broken, nuninst, change := broken0, nuninst0, 0;
    if !installable {
      if name !in broken {
        // regression
        broken := broken + {name};
        change := -1;
      }
      if nuninst.Some? && name !in nuninst.value {
        nuninst := Some(nuninst.value + {name});
      }
      assert broken == broken0 + {name};
    } else {
      if name in broken {
        // improvement
        broken := broken - {name};
        change := 1;
      }
      if nuninst.Some? && name in nuninst.value {
        nuninst := Some(nuninst.value - {name});
      }
      assert broken == broken0 - {name};
    }
  }

  /** `k` is to be tested again because its present binary is in `updates`. */
  predicate Rechecked(binaries: Binaries, updates: set<PackageId>, k: BinaryKey) {
    k in binaries && binaries[k] in updates
  }

  /** Whether `name` is broken once the packages of `updates` have been tested. */
  predicate BrokenAfter(test: PackageId -> bool, binaries: Binaries, updates: set<PackageId>,
                        before: set<string>, k: BinaryKey) {
    if Rechecked(binaries, updates, k) then !test(binaries[k]) else k.name in before
  }

  predicate CountedAfter(test: PackageId -> bool, data: Packages, checkArchAll: bool, binaries: Binaries,
                         updates: set<PackageId>, before: set<string>, k: BinaryKey) {
    if Rechecked(binaries, updates, k) then
      !test(binaries[k]) && (checkArchAll || !IsArchAll(data, binaries[k]))
    else k.name in before
  }

  /** Test the packages of `updates` that are in the suite on one architecture. */
  method CheckInstallability(test: PackageId -> bool, data: Packages, binaries: Binaries, arch: string,
                             updates: set<PackageId>, checkArchAll: bool, n0: Nuninst) returns (n: Nuninst)
    requires Covers(n0, {arch}) && forall k :: k in binaries ==> KeyOf(binaries[k]) == k
    ensures n.archs.Keys == n0.archs.Keys && n.withAll.Keys == n0.withAll.Keys
    ensures forall a :: a in n.archs && a != arch ==> n.archs[a] == n0.archs[a]
    ensures forall a :: a in n.withAll && a != arch ==> n.withAll[a] == n0.withAll[a]
    ensures forall name :: name in n.withAll[arch] <==>
      BrokenAfter(test, binaries, updates, n0.withAll[arch], BinaryKey(name, arch))
    ensures forall name :: name in n.archs[arch] <==>
      CountedAfter(test, data, checkArchAll, binaries, updates, n0.archs[arch], BinaryKey(name, arch))
  {
    var broken, nuninst := n0.withAll[arch], n0.archs[arch];
    var rest := set p | p in updates && p.architecture == arch;
    ghost var done: set<PackageId> := {};
    while rest != {}
      invariant done + rest == (set p | p in updates && p.architecture == arch)
      invariant forall name :: name in broken <==>
        BrokenAfter(test, binaries, done, n0.withAll[arch], BinaryKey(name, arch))
      invariant forall name :: name in nuninst <==>
        CountedAfter(test, data, checkArchAll, binaries, done, n0.archs[arch], BinaryKey(name, arch))
    {
      var p :| p in rest;
      ghost var broken0, nuninst0 := broken, nuninst;
      broken, nuninst := CheckOne(test, data, binaries, p, checkArchAll, broken, nuninst);
      CheckedStep(test, data, binaries, p, checkArchAll, done, n0.withAll[arch], n0.archs[arch],
                  broken0, nuninst0, broken, nuninst);
      rest := rest - {p};
      done := done + {p};
    }
    AllChecked(test, data, binaries, arch, updates, done, checkArchAll, n0);
    n := Nuninst(n0.archs[arch := nuninst], n0.withAll[arch := broken]);
  }

  lemma AllChecked(test: PackageId -> bool, data: Packages, binaries: Binaries, arch: string,
                   updates: set<PackageId>, done: set<PackageId>, checkArchAll: bool, n0: Nuninst)
    requires Covers(n0, {arch}) && forall k :: k in binaries ==> KeyOf(binaries[k]) == k
    requires done == set p | p in updates && p.architecture == arch
    ensures forall name :: BrokenAfter(test, binaries, done, n0.withAll[arch], BinaryKey(name, arch)) <==>
      BrokenAfter(test, binaries, updates, n0.withAll[arch], BinaryKey(name, arch))
    ensures forall name :: CountedAfter(test, data, checkArchAll, binaries, done, n0.archs[arch], BinaryKey(name, arch)) <==>
      CountedAfter(test, data, checkArchAll, binaries, updates, n0.archs[arch], BinaryKey(name, arch))
  {
  }

  method CheckOne(test: PackageId -> bool, data: Packages, binaries: Binaries, p: PackageId,
                  checkArchAll: bool, broken0: set<string>, nuninst0: set<string>)
    returns (broken: set<string>, nuninst: set<string>)
    ensures broken == BrokenWith(test, binaries, broken0, p)
    ensures nuninst == CountedWith(test, data, checkArchAll, binaries, nuninst0, p)
  {
    broken, nuninst := broken0, nuninst0;
    var k := KeyOf(p);
    // not the version in testing right now: ignore
    if k in binaries && binaries[k] == p {
      var table: Option<set<string>> := None;
      if checkArchAll || !IsArchAll(data, p) {
        // only check arch:all packages if requested
        table := Some(nuninst);
      } else {
        nuninst := nuninst - {k.name};
      }
      var change;
      broken, table, change := TestInstallability(test(p), k.name, broken, table);
      if table.Some? {
        nuninst := table.value;
      }
    }
  }

  function BrokenWith(test: PackageId -> bool, binaries: Binaries, before: set<string>, p: PackageId)
    : set<string> {
    var k := KeyOf(p);
    if k !in binaries || binaries[k] != p then before
    else if test(p) then before - {k.name}
    else before + {k.name}
  }

  function CountedWith(test: PackageId -> bool, data: Packages, checkArchAll: bool, binaries: Binaries,
                       before: set<string>, p: PackageId): set<string> {
    var k := KeyOf(p);
    if k !in binaries || binaries[k] != p then before
    else if test(p) || !(checkArchAll || !IsArchAll(data, p)) then before - {k.name}
    else before + {k.name}
  }

  lemma CheckedStep(test: PackageId -> bool, data: Packages, binaries: Binaries, p: PackageId,
                    checkArchAll: bool, done: set<PackageId>, broken: set<string>, nuninst: set<string>,
                    broken0: set<string>, nuninst0: set<string>, broken1: set<string>, nuninst1: set<string>)
    requires forall k :: k in binaries ==> KeyOf(binaries[k]) == k
    requires broken1 == BrokenWith(test, binaries, broken0, p)
    requires nuninst1 == CountedWith(test, data, checkArchAll, binaries, nuninst0, p)
    requires forall name :: name in broken0 <==>
      BrokenAfter(test, binaries, done, broken, BinaryKey(name, p.architecture))
    requires forall name :: name in nuninst0 <==>
      CountedAfter(test, data, checkArchAll, binaries, done, nuninst, BinaryKey(name, p.architecture))
    ensures forall name :: name in broken1 <==>
      BrokenAfter(test, binaries, done + {p}, broken, BinaryKey(name, p.architecture))
    ensures forall name :: name in nuninst1 <==>
      CountedAfter(test, data, checkArchAll, binaries, done + {p}, nuninst, BinaryKey(name, p.architecture))
  {
  }

  /** More uninstallable packages than allowed, or one that must stay installable. */
  predicate IsNuninstWorse(mustBeInstallable: set<string>, now: set<string>, after: set<string>, allowUninst: set<string>) {
    |after - allowUninst| > |now - allowUninst| || !((after - now) !! mustBeInstallable)
  }
}
