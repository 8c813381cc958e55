/**
 * Simulated kernel modules: the list of loaded modules with their use
 * counts, `module_put` / `try_module_get`, `insmod` with the
 * load-everything fixpoint, `rmmod` and unloading all.
 */
module Modules {
  import opened Wrappers

  /** `struct nfsim_module`: its name and use count. The shared object it
    * came from, and its init and exit functions, are oracles. */
  datatype Module = Module(name: string, use: nat)

  /** The module directory as `readdir` lists it: None when `opendir`
    * fails. */
  type Directory = Option<seq<string>>

  /** `dlopen(RTLD_NOW)` of `name.so` under the module path, given the
    * modules loaded so far: an object whose symbols come from another
    * module opens only once that module is loaded. */
  type Opens = (seq<Module>, string) -> bool

  /** `dlopen` never stops working because another module was loaded. */
  ghost predicate MonotoneOpens(opens: Opens)
  {
    forall m: seq<Module>, x: Module, n: string :: opens(m, n) ==> opens([x] + m, n)
  }

  /** What the `__module_init` of a module returns (0 without one). */
  type Inits = string -> int

  /** `find_module`: the first module of that name, from the head of the
    * list. */
  function FindModule(mods: seq<Module>, name: string, from: nat): (r: Option<nat>)
    requires from <= |mods|
    ensures r.Some? ==> from <= r.value < |mods| && mods[r.value].name == name
    ensures r.Some? ==> forall k :: from <= k < r.value ==> mods[k].name != name
    ensures r.None? ==> forall k :: from <= k < |mods| ==> mods[k].name != name
    decreases |mods| - from
  {
    if from == |mods| then None
    else if mods[from].name == name then Some(from)
    else FindModule(mods, name, from + 1)
  }

  /** Some module of that name is loaded. */
  ghost predicate Present(mods: seq<Module>, name: string)
  {
    exists k :: 0 <= k < |mods| && mods[k].name == name
  }

  lemma FoundIffPresent(mods: seq<Module>, name: string)
    ensures FindModule(mods, name, 0).Some? <==> Present(mods, name)
  {
  }

  /** The list walk of `find_module`. */
  method FindModuleIn(mods: seq<Module>, name: string) returns (r: Option<nat>)
    ensures r == FindModule(mods, name, 0)
  {
    var i := 0;
    while i < |mods|
      invariant i <= |mods| && FindModule(mods, name, 0) == FindModule(mods, name, i)
    {
      if mods[i].name == name {
        return Some(i);
      }
      i := i + 1;
    }
    return None;
  }

  /** `module_put(module)`, `module` being None for NULL: nothing for
    * NULL, fatal for an unknown module or a use count already 0, and
    * otherwise one use less. */
  function PutOf(mods: seq<Module>, owner: Option<string>): Result<seq<Module>>
  {
    if owner.None? then Ok(mods)
    else
      match FindModule(mods, owner.value, 0)
      case None => Barf
      case Some(i) =>
        if mods[i].use == 0 then Barf else Ok(mods[i := mods[i].(use := mods[i].use - 1)])
  }

  /** What `try_module_get` returns and the list it leaves. */
  datatype Got = Got(ret: int, mods: seq<Module>)

  /** `try_module_get(module)`, where `failOnce` is what
    * `should_i_fail_once` answers: 0 and no change on an injected
    * failure; 1 and no change for NULL; fatal for an unknown module; and
    * otherwise 1 with one use more. */
  function GetOf(mods: seq<Module>, owner: Option<string>, failOnce: bool): Result<Got>
  {
    if failOnce then Ok(Got(0, mods))
    else if owner.None? then Ok(Got(1, mods))
    else
      match FindModule(mods, owner.value, 0)
      case None => Barf
      case Some(i) => Ok(Got(1, mods[i := mods[i].(use := mods[i].use + 1)]))
  }

  /** `module_put` changes one use count, by one, and fails exactly for an
    * unknown module or one not in use. */
  lemma PutRules(mods: seq<Module>, name: string)
    ensures var r := PutOf(mods, Some(name));
      var i := FindModule(mods, name, 0);
      (r.Barf? <==> i.None? || mods[i.value].use == 0)
      && (r.Ok? ==>
            |r.value| == |mods|
            && r.value[i.value] == Module(name, mods[i.value].use - 1)
            && forall k :: 0 <= k < |mods| && k != i.value ==> r.value[k] == mods[k])
  {
  }

  /** A successful `try_module_get` undone by `module_put` leaves the list
    * as it was. */
  lemma PutUndoesGet(mods: seq<Module>, name: string)
    requires GetOf(mods, Some(name), false).Ok?
    ensures PutOf(GetOf(mods, Some(name), false).value.mods, Some(name)) == Ok(mods)
  {
    var i := FindModule(mods, name, 0).value;
    var got := GetOf(mods, Some(name), false).value.mods;
    assert FindModule(got, name, 0) == Some(i) by {
      assert forall k :: 0 <= k < |got| ==> got[k].name == mods[k].name;
      FirstAgrees(mods, got, name, 0);
    }
    assert got[i := got[i].(use := got[i].use - 1)] == mods;
  }

  /** Two lists with the same names have their first of a name at the same
    * place. */
  lemma {:induction false} FirstAgrees(a: seq<Module>, b: seq<Module>, name: string, from: nat)
    requires |a| == |b| && from <= |a|
    requires forall k :: 0 <= k < |a| ==> a[k].name == b[k].name
    ensures FindModule(a, name, from) == FindModule(b, name, from)
    decreases |a| - from
  {
    if from < |a| {
      FirstAgrees(a, b, name, from + 1);
    }
  }

  /** `strends(d_name, ".so")`. */
  predicate SoFile(entry: string)
  {
    |entry| >= 3 && entry[|entry| - 3..] == ".so"
  }

  /** The module name of a `.so` entry. */
  function SoName(entry: string): string
    requires SoFile(entry)
  {
    entry[..|entry| - 3]
  }

  /** How one pass over the directory ends: a module's init failed, or
    * every entry was seen. */
  datatype Pass = InitFailed(mods: seq<Module>) | Passed(tried: nat, succeeded: nat, mods: seq<Module>)

  /** The inner loop of `load_all_modules` from entry `i` on: a `.so`
    * whose name is not loaded is tried; one that opens is put at the head
    * with no users and its init run; an init that fails takes it out
    * again and ends everything. */
  function PassFrom(entries: seq<string>, i: nat, mods: seq<Module>, opens: Opens, inits: Inits, tried: nat, succeeded: nat): Pass
    requires i <= |entries|
    decreases |entries| - i
  {
    if i == |entries| then Passed(tried, succeeded, mods)
    else if !SoFile(entries[i]) || FindModule(mods, SoName(entries[i]), 0).Some? then
      PassFrom(entries, i + 1, mods, opens, inits, tried, succeeded)
    else if !opens(mods, SoName(entries[i])) then
      PassFrom(entries, i + 1, mods, opens, inits, tried + 1, succeeded)
    else if inits(SoName(entries[i])) != 0 then InitFailed(mods)
    else PassFrom(entries, i + 1, [Module(SoName(entries[i]), 0)] + mods, opens, inits, tried + 1, succeeded + 1)
  }

  /** The number of `.so` entries whose module is not loaded. */
  ghost function Missing(entries: seq<string>, mods: seq<Module>): nat
    decreases |entries|
  {
    if |entries| == 0 then 0
    else (if SoFile(entries[0]) && !Present(mods, SoName(entries[0])) then 1 else 0) + Missing(entries[1..], mods)
  }

  lemma PresentAfterPrepend(x: Module, mods: seq<Module>, name: string)
    ensures Present([x] + mods, name) <==> x.name == name || Present(mods, name)
  {
    if Present(mods, name) {
      var k :| 0 <= k < |mods| && mods[k].name == name;
      assert ([x] + mods)[k + 1] == mods[k];
    }
    if Present([x] + mods, name) && x.name != name {
      var k :| 0 <= k < |mods| + 1 && ([x] + mods)[k].name == name;
      assert ([x] + mods)[0] == x;
      assert mods[k - 1] == ([x] + mods)[k];
    }
  }

  /** Loading one more module never adds to the missing ones, and loading
    * the module of a missing entry removes one. */
  lemma {:induction false} MissingPrepend(entries: seq<string>, mods: seq<Module>, x: Module, j: nat)
    ensures Missing(entries, [x] + mods) <= Missing(entries, mods)
    ensures j < |entries| && SoFile(entries[j]) && SoName(entries[j]) == x.name && !Present(mods, x.name) ==>
      Missing(entries, [x] + mods) < Missing(entries, mods)
    decreases |entries|
  {
    if |entries| > 0 {
      if SoFile(entries[0]) {
        PresentAfterPrepend(x, mods, SoName(entries[0]));
      }
      MissingPrepend(entries[1..], mods, x, if j > 0 then j - 1 else 0);
      if 0 < j < |entries| {
        assert entries[1..][j - 1] == entries[j];
      }
    }
  }

  /** A pass only puts modules at the head of the list, one for each
    * success, and a pass with a success leaves fewer entries missing. */
  lemma {:induction false} PassProgress(entries: seq<string>, i: nat, mods: seq<Module>, opens: Opens, inits: Inits, tried: nat, succeeded: nat)
    requires i <= |entries|
    ensures var p := PassFrom(entries, i, mods, opens, inits, tried, succeeded);
      p.Passed? ==>
        p.succeeded >= succeeded && p.tried >= tried && |p.mods| == |mods| + p.succeeded - succeeded
        && p.mods[p.succeeded - succeeded..] == mods
        && Missing(entries, p.mods) <= Missing(entries, mods)
        && (p.succeeded > succeeded ==> Missing(entries, p.mods) < Missing(entries, mods))
    decreases |entries| - i
  {
    if i < |entries| {
      if !SoFile(entries[i]) || FindModule(mods, SoName(entries[i]), 0).Some? {
        PassProgress(entries, i + 1, mods, opens, inits, tried, succeeded);
      } else if !opens(mods, SoName(entries[i])) {
        assert PassFrom(entries, i, mods, opens, inits, tried, succeeded)
          == PassFrom(entries, i + 1, mods, opens, inits, tried + 1, succeeded);
        PassProgress(entries, i + 1, mods, opens, inits, tried + 1, succeeded);
      } else if inits(SoName(entries[i])) == 0 {
        var x := Module(SoName(entries[i]), 0);
        assert PassFrom(entries, i, mods, opens, inits, tried, succeeded)
          == PassFrom(entries, i + 1, [x] + mods, opens, inits, tried + 1, succeeded + 1);
        FoundIffPresent(mods, x.name);
        MissingPrepend(entries, mods, x, i);
        PassProgress(entries, i + 1, [x] + mods, opens, inits, tried + 1, succeeded + 1);
        var p := PassFrom(entries, i + 1, [x] + mods, opens, inits, tried + 1, succeeded + 1);
        if p.Passed? {
          assert p.mods[p.succeeded - succeeded..] == p.mods[p.succeeded - (succeeded + 1)..][1..];
        }
      }
    }
  }

  /** What a command returns and the list it leaves. */
  datatype Done = Done(ok: bool, mods: seq<Module>)

  /** `load_all_modules()`: passes until one loads nothing, true exactly
    * when that last pass tried nothing; false at once when the directory
    * does not open or an init fails. */
  function LoadAllOf(dir: Directory, mods: seq<Module>, opens: Opens, inits: Inits): Done
    decreases if dir.Some? then Missing(dir.value, mods) else 0
  {
    if dir.None? then Done(false, mods)
    else
      match PassFrom(dir.value, 0, mods, opens, inits, 0, 0)
      case InitFailed(m) => Done(false, m)
      case Passed(tried, succeeded, m) =>
        if succeeded != 0 then
          PassProgress(dir.value, 0, mods, opens, inits, 0, 0);
          LoadAllOf(dir, m, opens, inits)
        else Done(tried == 0, m)
  }

  /** Once `load_all_modules` succeeds, the module of every `.so` entry is
    * loaded, and the modules loaded before are still there, at the tail. */
  lemma {:induction false} LoadAllLoadsEverything(dir: Directory, mods: seq<Module>, opens: Opens, inits: Inits)
    requires LoadAllOf(dir, mods, opens, inits).ok
    ensures dir.Some?
    ensures var r := LoadAllOf(dir, mods, opens, inits).mods;
      |r| >= |mods| && r[|r| - |mods|..] == mods
      && forall j :: 0 <= j < |dir.value| && SoFile(dir.value[j]) ==> Present(r, SoName(dir.value[j]))
    decreases if dir.Some? then Missing(dir.value, mods) else 0
  {
    var p := PassFrom(dir.value, 0, mods, opens, inits, 0, 0);
    PassProgress(dir.value, 0, mods, opens, inits, 0, 0);
    if p.succeeded != 0 {
      LoadAllLoadsEverything(dir, p.mods, opens, inits);
      var r := LoadAllOf(dir, p.mods, opens, inits).mods;
      assert r[|r| - |mods|..] == r[|r| - |p.mods|..][|p.mods| - |mods|..];
    } else {
      forall j | 0 <= j < |dir.value| && SoFile(dir.value[j])
        ensures Present(p.mods, SoName(dir.value[j]))
      {
        NothingTried(dir.value, 0, mods, opens, inits, 0, j);
      }
    }
  }

  /** A pass that tries nothing from entry `i` on found the module of
    * every `.so` entry from there loaded already. */
  lemma {:induction false} NothingTried(entries: seq<string>, i: nat, mods: seq<Module>, opens: Opens, inits: Inits, tried: nat, j: nat)
    requires i <= j < |entries| && SoFile(entries[j])
    requires var p := PassFrom(entries, i, mods, opens, inits, tried, 0); p.Passed? && p.tried == tried
    ensures Present(mods, SoName(entries[j]))
    decreases |entries| - i
  {
    if SoFile(entries[i]) && FindModule(mods, SoName(entries[i]), 0).None? {
      var name := SoName(entries[i]);
      if !opens(mods, name) {
        PassProgress(entries, i + 1, mods, opens, inits, tried + 1, 0);
      } else {
        PassProgress(entries, i + 1, [Module(name, 0)] + mods, opens, inits, tried + 1, 1);
      }
      assert false;
    }
    if SoFile(entries[i]) {
      FoundIffPresent(mods, SoName(entries[i]));
    }
    if i < j {
      NothingTried(entries, i + 1, mods, opens, inits, tried, j);
    }
  }

  /** A name loaded before is still loaded once modules are put in front. */
  lemma PresentInTail(r: seq<Module>, mods: seq<Module>, name: string)
    requires |r| >= |mods| && r[|r| - |mods|..] == mods && Present(mods, name)
    ensures Present(r, name)
  {
    var k :| 0 <= k < |mods| && mods[k].name == name;
    assert r[|r| - |mods| + k] == mods[k];
  }

  /** No init fails: every pass runs to the end of the directory. */
  lemma {:induction false} PassCompletes(entries: seq<string>, i: nat, mods: seq<Module>, opens: Opens, inits: Inits, tried: nat, succeeded: nat)
    requires i <= |entries|
    requires forall n :: inits(n) == 0
    ensures PassFrom(entries, i, mods, opens, inits, tried, succeeded).Passed?
    decreases |entries| - i
  {
    if i < |entries| {
      if !SoFile(entries[i]) || FindModule(mods, SoName(entries[i]), 0).Some? {
        PassCompletes(entries, i + 1, mods, opens, inits, tried, succeeded);
      } else if !opens(mods, SoName(entries[i])) {
        PassCompletes(entries, i + 1, mods, opens, inits, tried + 1, succeeded);
      } else {
        PassCompletes(entries, i + 1, [Module(SoName(entries[i]), 0)] + mods, opens, inits, tried + 1, succeeded + 1);
      }
    }
  }

  /** Within a pass, a `.so` entry whose object would open given the
    * modules loaded when the pass reaches `i` is loaded by the end of the
    * pass (unless an init fails): the list only grows, and by
    * monotonicity the object still opens when its entry comes. */
  lemma {:induction false} PassLoadsOpenable(entries: seq<string>, i: nat, mods: seq<Module>, opens: Opens, inits: Inits, tried: nat, succeeded: nat, j: nat)
    requires MonotoneOpens(opens)
    requires i <= j < |entries| && SoFile(entries[j]) && opens(mods, SoName(entries[j]))
    ensures var p := PassFrom(entries, i, mods, opens, inits, tried, succeeded);
      p.Passed? ==> Present(p.mods, SoName(entries[j]))
    decreases |entries| - i
  {
    var name := SoName(entries[j]);
    var p := PassFrom(entries, i, mods, opens, inits, tried, succeeded);
    if !SoFile(entries[i]) || FindModule(mods, SoName(entries[i]), 0).Some? {
      if i == j {
        FoundIffPresent(mods, name);
        PassProgress(entries, i + 1, mods, opens, inits, tried, succeeded);
        if p.Passed? {
          PresentInTail(p.mods, mods, name);
        }
      } else {
        PassLoadsOpenable(entries, i + 1, mods, opens, inits, tried, succeeded, j);
      }
    } else if !opens(mods, SoName(entries[i])) {
      PassLoadsOpenable(entries, i + 1, mods, opens, inits, tried + 1, succeeded, j);
    } else if inits(SoName(entries[i])) == 0 {
      var x := Module(SoName(entries[i]), 0);
      if i == j {
        PassProgress(entries, i + 1, [x] + mods, opens, inits, tried + 1, succeeded + 1);
        if p.Passed? {
          PresentAfterPrepend(x, mods, name);
          PresentInTail(p.mods, [x] + mods, name);
        }
      } else {
        assert opens([x] + mods, name);
        PassLoadsOpenable(entries, i + 1, [x] + mods, opens, inits, tried + 1, succeeded + 1, j);
      }
    }
  }

  /** Why `load_all_modules` keeps making passes: a module whose object
    * opens once `dep` is loaded, and whose `dep` a pass loaded, is loaded
    * by the next pass, wherever the two stand in the directory. */
  lemma DependencyLoadsNextPass(entries: seq<string>, mods: seq<Module>, opens: Opens, inits: Inits, j: nat, dep: string)
    requires MonotoneOpens(opens)
    requires j < |entries| && SoFile(entries[j])
    requires forall m :: Present(m, dep) ==> opens(m, SoName(entries[j]))
    requires var p := PassFrom(entries, 0, mods, opens, inits, 0, 0); p.Passed? && Present(p.mods, dep)
    ensures var p := PassFrom(entries, 0, mods, opens, inits, 0, 0);
      var q := PassFrom(entries, 0, p.mods, opens, inits, 0, 0);
      q.Passed? ==> Present(q.mods, SoName(entries[j]))
  {
    var p := PassFrom(entries, 0, mods, opens, inits, 0, 0);
    PassLoadsOpenable(entries, 0, p.mods, opens, inits, 0, 0, j);
  }

  /** Where `load_all_modules` stops when no init fails: every `.so` entry
    * whose object would open given the modules then loaded is loaded, so
    * any order of the directory reaches the same closure. */
  lemma {:induction false} LoadAllClosed(dir: Directory, mods: seq<Module>, opens: Opens, inits: Inits)
    requires MonotoneOpens(opens)
    requires forall n :: inits(n) == 0
    requires dir.Some?
    ensures var r := LoadAllOf(dir, mods, opens, inits).mods;
      forall j :: 0 <= j < |dir.value| && SoFile(dir.value[j]) && opens(r, SoName(dir.value[j])) ==> Present(r, SoName(dir.value[j]))
    decreases Missing(dir.value, mods)
  {
    var p := PassFrom(dir.value, 0, mods, opens, inits, 0, 0);
    PassCompletes(dir.value, 0, mods, opens, inits, 0, 0);
    PassProgress(dir.value, 0, mods, opens, inits, 0, 0);
    if p.succeeded != 0 {
      LoadAllClosed(dir, p.mods, opens, inits);
    } else {
      assert p.mods == mods;
      forall j | 0 <= j < |dir.value| && SoFile(dir.value[j]) && opens(mods, SoName(dir.value[j]))
        ensures Present(mods, SoName(dir.value[j]))
      {
        PassLoadsOpenable(dir.value, 0, mods, opens, inits, 0, 0, j);
      }
    }
  }

  /** An object `a.so` that needs `b`, and `b.so`. */
  function NeedsB(m: seq<Module>, n: string): bool
  {
    n == "b" || (n == "a" && FindModule(m, "b", 0).Some?)
  }

  /** Every init returns 0. */
  function NoInitFails(n: string): int
  {
    0
  }

  /** With `a.so` listed before the `b.so` it needs, the first pass loads
    * only `b`, the second loads `a`, and the third tries nothing, so
    * `load_all_modules` succeeds with `a` last loaded. */
  lemma DependencyOrder()
    ensures PassFrom(["a.so", "b.so"], 0, [], NeedsB, NoInitFails, 0, 0) == Passed(2, 1, [Module("b", 0)])
    ensures LoadAllOf(Some(["a.so", "b.so"]), [], NeedsB, NoInitFails) == Done(true, [Module("a", 0), Module("b", 0)])
  {
    var entries := ["a.so", "b.so"];
    assert SoName(entries[0]) == "a" && SoName(entries[1]) == "b";
    var one := [Module("b", 0)];
    var two := [Module("a", 0), Module("b", 0)];
    assert FindModule(one, "a", 0) == None;
    assert FindModule(one, "b", 0) == Some(0);
    assert FindModule(two, "a", 0) == Some(0);
    assert FindModule(two, "b", 0) == Some(1);
    assert PassFrom(entries, 0, [], NeedsB, NoInitFails, 0, 0) == Passed(2, 1, one);
    assert [Module("a", 0)] + one == two;
    assert PassFrom(entries, 2, two, NeedsB, NoInitFails, 1, 1) == Passed(1, 1, two);
    assert PassFrom(entries, 1, two, NeedsB, NoInitFails, 1, 1) == Passed(1, 1, two);
    assert PassFrom(entries, 0, one, NeedsB, NoInitFails, 0, 0) == Passed(1, 1, two);
    assert PassFrom(entries, 0, two, NeedsB, NoInitFails, 0, 0) == Passed(0, 0, two);
  }

  /** `unload_all_modules()`: modules from the head of the list (the last
    * loaded first) are unloaded until one is still in use; that one and
    * all after it stay, and the result is false. */
  function UnloadAllOf(mods: seq<Module>): (r: Done)
    ensures r.ok <==> forall k :: 0 <= k < |mods| ==> mods[k].use == 0
    ensures r.ok ==> r.mods == []
    ensures |r.mods| <= |mods|
    ensures !r.ok ==> |r.mods| > 0 && r.mods[0].use > 0 && r.mods == mods[|mods| - |r.mods|..]
    ensures forall k :: 0 <= k < |mods| - |r.mods| ==> mods[k].use == 0
    decreases |mods|
  {
    if |mods| == 0 then Done(true, [])
    else if mods[0].use > 0 then Done(false, mods)
    else
      var r := UnloadAllOf(mods[1..]);
      assert forall k :: 1 <= k < |mods| ==> mods[k] == mods[1..][k - 1];
      r
  }

  /** The module at `i` taken out, the others in order. */
  function Without(mods: seq<Module>, i: nat): (r: seq<Module>)
    requires i < |mods|
    ensures |r| == |mods| - 1
    ensures forall k :: 0 <= k < i ==> r[k] == mods[k]
    ensures forall k :: i <= k < |r| ==> r[k] == mods[k + 1]
  {
    mods[..i] + mods[i + 1..]
  }

  /** `insmod(argc, argv)`: `-a` loads everything; otherwise exactly one
    * name, not yet loaded, whose object opens and whose init returns 0;
    * the new module heads the list with no users. */
  function InsmodOf(mods: seq<Module>, args: seq<string>, dir: Directory, opens: Opens, inits: Inits): Done
  {
    if |args| != 2 then Done(false, mods)
    else if args[1] == "-a" then LoadAllOf(dir, mods, opens, inits)
    else if FindModule(mods, args[1], 0).Some? then Done(false, mods)
    else if !opens(mods, args[1]) then Done(false, mods)
    else if inits(args[1]) != 0 then Done(false, mods)
    else Done(true, [Module(args[1], 0)] + mods)
  }

  /** `rmmod(argc, argv)`: `-a` unloads everything it can; otherwise the
    * first module of that name is unloaded, in use or not. */
  function RmmodOf(mods: seq<Module>, args: seq<string>): Done
  {
    if |args| != 2 then Done(false, mods)
    else if args[1] == "-a" then UnloadAllOf(mods)
    else
      match FindModule(mods, args[1], 0)
      case None => Done(false, mods)
      case Some(i) => Done(true, Without(mods, i))
  }

  /** `insmod NAME`: refused for another argument count or a loaded name;
    * a module whose init fails is not kept; a success puts it at the head. */
  lemma InsmodRules(mods: seq<Module>, args: seq<string>, dir: Directory, opens: Opens, inits: Inits)
    requires |args| != 2 || args[1] != "-a"
    ensures var r := InsmodOf(mods, args, dir, opens, inits);
      (r.ok <==> |args| == 2 && !Present(mods, args[1]) && opens(mods, args[1]) && inits(args[1]) == 0)
      && (!r.ok ==> r.mods == mods)
      && (r.ok ==> r.mods == [Module(args[1], 0)] + mods)
  {
    if |args| == 2 {
      FoundIffPresent(mods, args[1]);
    }
  }

  /** Unloading everything goes from the head: after loading `a` and then
    * `b`, `b` is unloaded first, and a `b` still in use keeps `a` too. */
  lemma UnloadReverseOrder(a: string, b: string, bUse: nat)
    requires bUse > 0
    ensures UnloadAllOf([Module(b, bUse), Module(a, 0)]) == Done(false, [Module(b, bUse), Module(a, 0)])
    ensures UnloadAllOf([Module(b, 0), Module(a, 0)]) == Done(true, [])
  {
    assert [Module(b, 0), Module(a, 0)][1..] == [Module(a, 0)];
    assert [Module(a, 0)][1..] == [];
  }

  /** `load_mod` followed by `insmod`'s check: a module loaded by `insmod`
    * is found by the next `find_module` and cannot be loaded twice. */
  lemma InsmodTwice(mods: seq<Module>, name: string, dir: Directory, opens: Opens, inits: Inits)
    requires name != "-a" && InsmodOf(mods, ["insmod", name], dir, opens, inits).ok
    ensures var once := InsmodOf(mods, ["insmod", name], dir, opens, inits).mods;
      InsmodOf(once, ["insmod", name], dir, opens, inits) == Done(false, once)
  {
    var once := InsmodOf(mods, ["insmod", name], dir, opens, inits).mods;
    assert once[0].name == name;
  }

  /** The C global `modules` list, head first. */
  class ModuleList {
    var mods: seq<Module>

    constructor ()
      ensures mods == []
    {
      mods := [];
    }

    /** `module_put`; `fatal` stands for `barf`, which ends the program. */
    method ModulePut(owner: Option<string>) returns (fatal: bool)
      modifies this
      ensures fatal <==> PutOf(old(mods), owner).Barf?
      ensures !fatal ==> mods == PutOf(old(mods), owner).value
      ensures fatal ==> mods == old(mods)
    {
      if owner.None? {
        return false;
      }
      var i := FindModuleIn(mods, owner.value);
      if i.None? || mods[i.value].use == 0 {
        return true;
      }
      mods := mods[i.value := mods[i.value].(use := mods[i.value].use - 1)];
      return false;
    }

    /** `try_module_get`, with `failOnce` the answer of
      * `should_i_fail_once`. */
    method TryModuleGet(owner: Option<string>, failOnce: bool) returns (fatal: bool, ret: int)
      modifies this
      ensures fatal <==> GetOf(old(mods), owner, failOnce).Barf?
      ensures !fatal ==> Got(ret, mods) == GetOf(old(mods), owner, failOnce).value
      ensures fatal ==> mods == old(mods)
    {
      if failOnce {
        return false, 0;
      }
      if owner.None? {
        return false, 1;
      }
      var i := FindModuleIn(mods, owner.value);
      if i.None? {
        return true, 0;
      }
      mods := mods[i.value := mods[i.value].(use := mods[i.value].use + 1)];
      return false, 1;
    }

    /** `load_all_modules`: the do/while over passes, the inner loop over
      * the directory entries. */
    method LoadAllModules(dir: Directory, opens: Opens, inits: Inits) returns (ok: bool)
      modifies this
      ensures Done(ok, mods) == LoadAllOf(dir, old(mods), opens, inits)
    {
      if dir.None? {
        return false;
      }
      var entries := dir.value;
      while true
        invariant LoadAllOf(dir, mods, opens, inits) == LoadAllOf(dir, old(mods), opens, inits)
        decreases Missing(entries, mods)
      {
        ghost var start := mods;
        var tried, succeeded := 0, 0;
        var i := 0;
        while i < |entries|
          invariant i <= |entries|
          invariant PassFrom(entries, i, mods, opens, inits, tried, succeeded) == PassFrom(entries, 0, start, opens, inits, 0, 0)
        {
          var entry := entries[i];
          i := i + 1;
          if !SoFile(entry) {
            continue;
          }
          var name := SoName(entry);
          var found := FindModuleIn(mods, name);
          if found.Some? {
            continue;
          }
          tried := tried + 1;
          if !opens(mods, name) {
            continue;
          }
          mods := [Module(name, 0)] + mods;
          var ret := inits(name);
          if ret != 0 {
            mods := mods[1..];
            return false;
          }
          succeeded := succeeded + 1;
        }
        PassProgress(entries, 0, start, opens, inits, 0, 0);
        if succeeded == 0 {
          return tried == 0;
        }
      }
    }

    /** `insmod(argc, argv)`. */
    method Insmod(args: seq<string>, dir: Directory, opens: Opens, inits: Inits) returns (ok: bool)
      modifies this
      ensures Done(ok, mods) == InsmodOf(old(mods), args, dir, opens, inits)
    {
      if |args| != 2 {
        return false;
      }
      if args[1] == "-a" {
        ok := LoadAllModules(dir, opens, inits);
        return;
      }
      var found := FindModuleIn(mods, args[1]);
      if found.Some? {
        return false;
      }
      if !opens(mods, args[1]) {
        return false;
      }
      mods := [Module(args[1], 0)] + mods;
      var ret := inits(args[1]);
      if ret != 0 {
        mods := mods[1..];
        return false;
      }
      return true;
    }

    /** `unload_all_modules`: the safe list walk, unloading from the head. */
    method UnloadAllModules() returns (ok: bool)
      modifies this
      ensures Done(ok, mods) == UnloadAllOf(old(mods))
    {
      while |mods| > 0
        invariant UnloadAllOf(mods) == UnloadAllOf(old(mods))
      {
        if mods[0].use > 0 {
          return false;
        }
        mods := mods[1..];
      }
      return true;
    }

    /** `rmmod(argc, argv)`. */
    method Rmmod(args: seq<string>) returns (ok: bool)
      modifies this
      ensures Done(ok, mods) == RmmodOf(old(mods), args)
    {
      if |args| != 2 {
        return false;
      }
      if args[1] == "-a" {
        ok := UnloadAllModules();
        return;
      }
      var found := FindModuleIn(mods, args[1]);
      if found.None? {
        return false;
      }
      mods := Without(mods, found.value);
      return true;
    }
  }
}
