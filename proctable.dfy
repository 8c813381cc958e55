/**
 * The sysctl tables under `/proc/sys`. `register_proc_table` walks a
 * `ctl_table` array under a directory: it creates a file for every entry
 * with a handler, creates or reuses a directory for every entry with a
 * child table and descends into it, and records each entry's
 * `proc_dir_entry` in `table->de`. `unregister_proc_table` walks the table
 * again, removes what was recorded and clears `table->de`, but keeps a
 * directory that still has entries.
 *
 * A table is a value here. The C code writes `table->de` in place; the
 * model returns the table with those fields written.
 */
module ProcTable {
  import opened Wrappers
  import opened ProcFs

  /** One `ctl_table` entry before the terminating zero `ctl_name`. `addr`
    * stands for the entry's address, which `de->data` keeps; `procname`
    * and `child` are None for NULL; `handler` says whether `proc_handler`
    * is set; `de` is the `proc_dir_entry` recorded for the entry. */
  datatype CtlEntry = CtlEntry(addr: nat, procname: Option<string>, mode: bv32, handler: bool, child: Option<CtlTable>, de: Option<Id>)

  /** A `ctl_table` array up to its terminator. */
  datatype CtlTable = CtlTable(entries: seq<CtlEntry>)

  /** The tree, the next free identity and the table after registering. */
  datatype Registered = Registered(tree: Tree, next: Id, table: CtlTable)
  datatype EntryRegistered = EntryRegistered(tree: Tree, next: Id, entry: CtlEntry)

  /** The tree and the table after unregistering. */
  datatype Unregistered = Unregistered(tree: Tree, table: CtlTable)
  datatype EntryUnregistered = EntryUnregistered(tree: Tree, entry: CtlEntry)

  /** Every entry of the tree is older than `next`. */
  predicate Below(tree: Tree, next: Id)
  {
    forall d :: d in tree ==> d < next
  }

  /** `de->mode & S_IFDIR` */
  predicate IsDir(ent: Entry)
  {
    ent.mode & S_IFDIR != 0
  }

  /** `e'` is `e` with at most its `de` and `child` fields written. */
  predicate Retagged(e: CtlEntry, e': CtlEntry)
  {
    e'.addr == e.addr && e'.procname == e.procname && e'.mode == e.mode && e'.handler == e.handler
  }

  /** The mode an entry is created with: `S_IFREG` added for an entry with
    * a handler, `S_IFDIR` otherwise. */
  function TableMode(e: CtlEntry): (m: bv32)
    ensures !e.handler ==> m & S_IFDIR != 0
    ensures e.handler ==> (m & S_IFDIR == 0 <==> e.mode & S_IFDIR == 0)
    ensures m & 0xfff == e.mode & 0xfff
  {
    e.mode | (if e.handler then S_IFREG else S_IFDIR)
  }

  // ------------------------------------------------------------------
  // register_proc_table
  // ------------------------------------------------------------------

  /** `register_proc_table(table, root)` from entry `i` on: the entries in
    * order, each as `RegisterEntry`; the first fatal entry ends the walk. */
  function RegisterFrom(t: Tree, next: Id, root: Id, table: CtlTable, i: nat): (r: Result<Registered>)
    requires root in t && Below(t, next) && i <= |table.entries|
    ensures r.Ok? ==> |r.value.table.entries| == |table.entries| && r.value.table.entries[..i] == table.entries[..i]
    ensures r.Ok? ==> forall k :: i <= k < |table.entries| ==> Retagged(table.entries[k], r.value.table.entries[k])
    ensures r.Ok? ==> t.Keys <= r.value.tree.Keys && next <= r.value.next && Below(r.value.tree, r.value.next)
    ensures r.Ok? && Closed(t) ==> Closed(r.value.tree)
    decreases table, |table.entries| - i
  {
    if i == |table.entries| then Ok(Registered(t, next, table))
    else match RegisterEntry(t, next, root, table.entries[i])
      case Barf => Barf
      case Ok(s) =>
        match RegisterFrom(s.tree, s.next, root, table, i + 1)
        case Barf => Barf
        case Ok(rest) => Ok(rest.(table := CtlTable(rest.table.entries[i := s.entry])))
  }

  /** One pass of the loop. An entry without a procname is skipped; one with
    * neither a handler nor a child table is fatal. An entry without a
    * handler first looks for a child of `root` its name matches, and
    * reuses it. Otherwise the entry is created under `root` with its `data`
    * pointing at the table entry; a failed create (with failure injection
    * suppressed, only an empty name fails) skips the entry. */
  function RegisterEntry(t: Tree, next: Id, root: Id, e: CtlEntry): (r: Result<EntryRegistered>)
    requires root in t && Below(t, next)
    ensures r.Ok? ==> Retagged(e, r.value.entry)
    ensures r.Ok? ==> t.Keys <= r.value.tree.Keys && next <= r.value.next && Below(r.value.tree, r.value.next)
    ensures r.Ok? && Closed(t) ==> Closed(r.value.tree)
    ensures e.procname.None? ==> r == Ok(EntryRegistered(t, next, e))
    ensures e.procname.Some? && !e.handler && e.child.None? ==> r.Barf?
    decreases e
  {
    if e.procname.None? then Ok(EntryRegistered(t, next, e))
    else if !e.handler && e.child.None? then Barf
    else
      var n := e.procname.value;
      match (if e.handler then None else Lookup(t, root, |n|, n))
      case Some(d) => Descend(t, next, e.(de := Some(d)))
      case None =>
        match ProcCreate(t, Some(root), Some(n), TableMode(e), false)
        case None => Ok(EntryRegistered(t, next, e))
        case Some(c) =>
          var t1 := Register(t, root, next, c.entry.(data := Some(e.addr)));
          assert Closed(t) ==> Closed(t1) by {
            if Closed(t) {
              RegisterKeepsClosed(t, root, next, c.entry.(data := Some(e.addr)));
            }
          }
          Descend(t1, next + 1, e.(de := Some(next)))
  }

  /** `table->de = de`, and when `de` is a directory its child table is
    * registered under it; a directory entry without a child table is a
    * NULL dereference there, fatal here. */
  function Descend(t: Tree, next: Id, e: CtlEntry): (r: Result<EntryRegistered>)
    requires e.de.Some? && e.de.value in t && Below(t, next)
    ensures r.Ok? ==> r.value.entry == e.(child := r.value.entry.child)
    ensures r.Ok? ==> t.Keys <= r.value.tree.Keys && next <= r.value.next && Below(r.value.tree, r.value.next)
    ensures r.Ok? && Closed(t) ==> Closed(r.value.tree)
    ensures !IsDir(t[e.de.value]) ==> r == Ok(EntryRegistered(t, next, e))
    ensures IsDir(t[e.de.value]) && e.child.None? ==> r.Barf?
    decreases e.child
  {
    var de := e.de.value;
    if !IsDir(t[de]) then Ok(EntryRegistered(t, next, e))
    else if e.child.None? then Barf
    else match RegisterFrom(t, next, de, e.child.value, 0)
      case Barf => Barf
      case Ok(c) => Ok(EntryRegistered(c.tree, c.next, e.(child := Some(c.table))))
  }

  // ------------------------------------------------------------------
  // unregister_proc_table
  // ------------------------------------------------------------------

  /** `unregister_proc_table(table, root)` from entry `i` on. */
  function UnregisterFrom(t: Tree, root: Id, table: CtlTable, i: nat, ignore: bool): (r: Result<Unregistered>)
    requires root in t && i <= |table.entries|
    ensures r.Ok? ==> |r.value.table.entries| == |table.entries| && r.value.table.entries[..i] == table.entries[..i]
    ensures r.Ok? ==> forall k :: i <= k < |table.entries| ==> Retagged(table.entries[k], r.value.table.entries[k])
    ensures r.Ok? ==> r.value.tree.Keys == t.Keys
    ensures r.Ok? && Closed(t) ==> Closed(r.value.tree)
    decreases table, |table.entries| - i
  {
    if i == |table.entries| then Ok(Unregistered(t, table))
    else match UnregisterEntry(t, root, table.entries[i], ignore)
      case Barf => Barf
      case Ok(s) =>
        match UnregisterFrom(s.tree, root, table, i + 1, ignore)
        case Barf => Barf
        case Ok(rest) => Ok(rest.(table := CtlTable(rest.table.entries[i := s.entry])))
  }

  /** One pass of the loop. An entry with no recorded `de` is skipped, and
    * so is a directory entry without a child table (after the "malformed
    * sysctl tree" alert). A directory's child table is unregistered first,
    * and a directory that still has entries is kept, its `de` too.
    * Otherwise `de` is cleared and the entry removed from `root` by name.
    * A `de` that names no entry of the tree is a bad pointer, fatal here. */
  function UnregisterEntry(t: Tree, root: Id, e: CtlEntry, ignore: bool): (r: Result<EntryUnregistered>)
    requires root in t
    ensures r.Ok? ==> Retagged(e, r.value.entry) && (r.value.entry.de.None? || r.value.entry.de == e.de)
    ensures r.Ok? ==> r.value.tree.Keys == t.Keys
    ensures r.Ok? && Closed(t) ==> Closed(r.value.tree)
    ensures e.de.None? ==> r == Ok(EntryUnregistered(t, e))
    ensures e.de.Some? && e.de.value in t && IsDir(t[e.de.value]) && e.child.None? ==> r == Ok(EntryUnregistered(t, e))
    decreases e
  {
    if e.de.None? then Ok(EntryUnregistered(t, e))
    else if e.de.value !in t then Barf
    else if !IsDir(t[e.de.value]) then Remove(t, root, e, ignore)
    else if e.child.None? then Ok(EntryUnregistered(t, e))
    else match UnregisterFrom(t, e.de.value, e.child.value, 0, ignore)
      case Barf => Barf
      case Ok(c) =>
        var e1 := e.(child := Some(c.table));
        if c.tree[e.de.value].subdir != [] then Ok(EntryUnregistered(c.tree, e1))
        else Remove(c.tree, root, e1, ignore)
  }

  /** `table->de = NULL; remove_proc_entry(table->procname, root)`: the
    * first child of `root` matching the procname is unlinked; none is fatal
    * unless `--ignore-proc-issues`, and a NULL procname is a NULL
    * dereference, fatal here. */
  function Remove(t: Tree, root: Id, e: CtlEntry, ignore: bool): (r: Result<EntryUnregistered>)
    requires root in t
    ensures r.Ok? ==> r.value.entry == e.(de := None) && r.value.tree.Keys == t.Keys
    ensures r.Ok? && Closed(t) ==> Closed(r.value.tree)
    ensures e.procname.None? ==> r.Barf?
    ensures r.Barf? <==> e.procname.None? || (!ignore && Lookup(t, root, |e.procname.value|, e.procname.value).None?)
  {
    if e.procname.None? then Barf
    else
      var n := e.procname.value;
      UnlinkKeepsClosed(t, root, |n|, n);
      match Unlink(t, root, |n|, n)
      case Some(u) => Ok(EntryUnregistered(u, e.(de := None)))
      case None => if ignore then Ok(EntryUnregistered(t, e.(de := None))) else Barf
  }

  // ------------------------------------------------------------------
  // What registering promises
  // ------------------------------------------------------------------

  /** `a` ends `b`. */
  predicate IsSuffix(a: seq<Id>, b: seq<Id>)
  {
    |a| <= |b| && b[|b| - |a|..] == a
  }

  /** `t'` keeps every entry of `t`, changed at most by children added at
    * the heads of child lists. */
  ghost predicate Grows(t: Tree, t': Tree)
  {
    && t.Keys <= t'.Keys
    && forall d :: d in t ==> t'[d] == t[d].(subdir := t'[d].subdir) && IsSuffix(t[d].subdir, t'[d].subdir)
  }

  lemma GrowsTrans(a: Tree, b: Tree, c: Tree)
    requires Grows(a, b) && Grows(b, c)
    ensures Grows(a, c)
  {
    forall d | d in a
      ensures IsSuffix(a[d].subdir, c[d].subdir)
    {
      var x, y, z := a[d].subdir, b[d].subdir, c[d].subdir;
      assert z[|z| - |x|..] == z[|z| - |y|..][|y| - |x|..];
    }
  }

  lemma RegisterGrows(t: Tree, dir: Id, id: Id, ent: Entry)
    requires dir in t && id !in t
    ensures Grows(t, Register(t, dir, id, ent))
  {
    var t' := Register(t, dir, id, ent);
    forall d | d in t
      ensures IsSuffix(t[d].subdir, t'[d].subdir)
    {
      if d == dir {
        assert t'[d].subdir[1..] == t[d].subdir;
      } else {
        assert t'[d].subdir[0..] == t[d].subdir;
      }
    }
  }

  lemma SuffixMember(x: Id, a: seq<Id>, b: seq<Id>)
    requires IsSuffix(a, b) && x in a
    ensures x in b
  {
    var k :| 0 <= k < |a| && a[k] == x;
    assert b[|b| - |a| + k] == x;
  }

  /** Registering only adds: every entry stays, and child lists only grow
    * at their heads. */
  lemma {:induction false} RegisterFromGrows(t: Tree, next: Id, root: Id, table: CtlTable, i: nat)
    requires root in t && Below(t, next) && i <= |table.entries|
    ensures var r := RegisterFrom(t, next, root, table, i);
      r.Ok? ==> Grows(t, r.value.tree)
    decreases table, |table.entries| - i
  {
    if i < |table.entries| {
      var s := RegisterEntry(t, next, root, table.entries[i]);
      if s.Ok? {
        RegisterEntryGrows(t, next, root, table.entries[i]);
        RegisterFromGrows(s.value.tree, s.value.next, root, table, i + 1);
        var rest := RegisterFrom(s.value.tree, s.value.next, root, table, i + 1);
        if rest.Ok? {
          GrowsTrans(t, s.value.tree, rest.value.tree);
        }
      }
    }
  }

  lemma {:induction false} RegisterEntryGrows(t: Tree, next: Id, root: Id, e: CtlEntry)
    requires root in t && Below(t, next)
    ensures var r := RegisterEntry(t, next, root, e);
      r.Ok? ==> Grows(t, r.value.tree)
    decreases e, 1
  {
    if e.procname.Some? && !(!e.handler && e.child.None?) {
      var n := e.procname.value;
      var found := if e.handler then None else Lookup(t, root, |n|, n);
      if found.Some? {
        DescendGrows(t, next, e.(de := found));
      } else {
        var c := ProcCreate(t, Some(root), Some(n), TableMode(e), false);
        if c.Some? {
          var ent := c.value.entry.(data := Some(e.addr));
          RegisterGrows(t, root, next, ent);
          CreatedGrows(t, Register(t, root, next, ent), next, e);
        }
      }
    }
  }

  /** The entry created for `e` as `next`, then its child table. */
  lemma {:induction false} CreatedGrows(t: Tree, t1: Tree, next: Id, e: CtlEntry)
    requires Grows(t, t1) && next in t1 && Below(t1, next + 1)
    ensures var r := Descend(t1, next + 1, e.(de := Some(next)));
      r.Ok? ==> Grows(t, r.value.tree)
    decreases e, 0
  {
    DescendGrows(t1, next + 1, e.(de := Some(next)));
    var r := Descend(t1, next + 1, e.(de := Some(next)));
    if r.Ok? {
      GrowsTrans(t, t1, r.value.tree);
    }
  }

  lemma {:induction false} DescendGrows(t: Tree, next: Id, e: CtlEntry)
    requires e.de.Some? && e.de.value in t && Below(t, next)
    ensures var r := Descend(t, next, e);
      r.Ok? ==> Grows(t, r.value.tree)
    decreases e.child
  {
    if IsDir(t[e.de.value]) && e.child.Some? {
      RegisterFromGrows(t, next, e.de.value, e.child.value, 0);
    }
  }

  /** What registering an entry leaves: an entry without a procname is
    * untouched, and one with a non-empty procname is recorded as a child of
    * `root` that its name matches. */
  ghost predicate PlacedUnder(t: Tree, root: Id, e: CtlEntry, e': CtlEntry)
  {
    && (e.procname.None? ==> e' == e)
    && (e.procname.Some? && e.procname.value != "" ==>
          && e'.de.Some? && root in t && e'.de.value in t[root].subdir
          && Matches(t, e'.de.value, |e.procname.value|, e.procname.value))
  }

  lemma PlacedGrows(t: Tree, t': Tree, root: Id, e: CtlEntry, e': CtlEntry)
    requires PlacedUnder(t, root, e, e') && Grows(t, t')
    ensures PlacedUnder(t', root, e, e')
  {
    if e.procname.Some? && e.procname.value != "" {
      SuffixMember(e'.de.value, t[root].subdir, t'[root].subdir);
    }
  }

  /** One entry: the child of `root` it is recorded as is the one it
    * reused, or the one created for it, found under `root` by its name. */
  lemma RegisterEntryPlaces(t: Tree, next: Id, root: Id, e: CtlEntry)
    requires root in t && Below(t, next)
    requires RegisterEntry(t, next, root, e).Ok?
    ensures var r := RegisterEntry(t, next, root, e).value;
      PlacedUnder(r.tree, root, e, r.entry)
  {
    var r := RegisterEntry(t, next, root, e).value;
    if e.procname.Some? {
      var n := e.procname.value;
      var found := if e.handler then None else Lookup(t, root, |n|, n);
      if found.Some? {
        DescendGrows(t, next, e.(de := found));
        PlacedGrows(t, r.tree, root, e, e.(de := found));
      } else if n != "" {
        var c := ProcCreate(t, Some(root), Some(n), TableMode(e), false);
        var ent := c.value.entry.(data := Some(e.addr));
        var t1 := Register(t, root, next, ent);
        assert t1[root].subdir == [next] + t[root].subdir;
        assert ProcMatch(|n|, n, t1[next]);
        DescendGrows(t1, next + 1, e.(de := Some(next)));
        PlacedGrows(t1, r.tree, root, e, e.(de := Some(next)));
      }
    }
  }

  /** Every entry of a registered table with a non-empty procname is
    * recorded as a child of `root` that its name matches, and every entry
    * without a procname is left as it was. */
  lemma {:induction false} RegisteredEntriesPlaced(t: Tree, next: Id, root: Id, table: CtlTable, i: nat)
    requires root in t && Below(t, next) && i <= |table.entries|
    requires RegisterFrom(t, next, root, table, i).Ok?
    ensures var r := RegisterFrom(t, next, root, table, i).value;
      forall k :: i <= k < |table.entries| ==> PlacedUnder(r.tree, root, table.entries[k], r.table.entries[k])
    decreases |table.entries| - i
  {
    if i < |table.entries| {
      var s := RegisterEntry(t, next, root, table.entries[i]).value;
      var rest := RegisterFrom(s.tree, s.next, root, table, i + 1).value;
      RegisterEntryPlaces(t, next, root, table.entries[i]);
      RegisterFromGrows(s.tree, s.next, root, table, i + 1);
      PlacedGrows(s.tree, rest.tree, root, table.entries[i], s.entry);
      RegisteredEntriesPlaced(s.tree, s.next, root, table, i + 1);
    }
  }

  /** Registering under `dir` leaves every entry older than `dir` as it was. */
  lemma {:induction false} RegisterFromKeepsOlder(t: Tree, next: Id, dir: Id, table: CtlTable, i: nat)
    requires dir in t && Below(t, next) && Closed(t) && i <= |table.entries|
    ensures var r := RegisterFrom(t, next, dir, table, i);
      r.Ok? ==> forall x :: x in t && x < dir ==> r.value.tree[x] == t[x]
    decreases table, |table.entries| - i
  {
    if i < |table.entries| {
      var s := RegisterEntry(t, next, dir, table.entries[i]);
      if s.Ok? {
        RegisterEntryKeepsOlder(t, next, dir, table.entries[i]);
        RegisterFromKeepsOlder(s.value.tree, s.value.next, dir, table, i + 1);
      }
    }
  }

  lemma {:induction false} RegisterEntryKeepsOlder(t: Tree, next: Id, dir: Id, e: CtlEntry)
    requires dir in t && Below(t, next) && Closed(t)
    ensures var r := RegisterEntry(t, next, dir, e);
      r.Ok? ==> forall x :: x in t && x < dir ==> r.value.tree[x] == t[x]
    decreases e
  {
    if e.procname.Some? && !(!e.handler && e.child.None?) {
      var n := e.procname.value;
      var found := if e.handler then None else Lookup(t, dir, |n|, n);
      if found.Some? {
        assert found.value > dir;
        DescendKeepsOlder(t, next, e.(de := found));
      } else {
        var c := ProcCreate(t, Some(dir), Some(n), TableMode(e), false);
        if c.Some? {
          var ent := c.value.entry.(data := Some(e.addr));
          RegisterKeepsClosed(t, dir, next, ent);
          DescendKeepsOlder(Register(t, dir, next, ent), next + 1, e.(de := Some(next)));
        }
      }
    }
  }

  lemma {:induction false} DescendKeepsOlder(t: Tree, next: Id, e: CtlEntry)
    requires e.de.Some? && e.de.value in t && Below(t, next) && Closed(t)
    ensures var r := Descend(t, next, e);
      r.Ok? ==> forall x :: x in t && x < e.de.value ==> r.value.tree[x] == t[x]
    decreases e.child
  {
    if IsDir(t[e.de.value]) && e.child.Some? {
      RegisterFromKeepsOlder(t, next, e.de.value, e.child.value, 0);
    }
  }

  /** A directory entry whose name matches a child of `root` reuses that
    * child: it is recorded as the entry's `de`, and `root` gets no new
    * child. */
  lemma DirectoryReused(t: Tree, next: Id, root: Id, e: CtlEntry)
    requires root in t && Below(t, next) && Closed(t)
    requires e.procname.Some? && !e.handler && e.child.Some?
    requires Lookup(t, root, |e.procname.value|, e.procname.value).Some?
    ensures var r := RegisterEntry(t, next, root, e);
      r.Ok? ==> r.value.entry.de == Lookup(t, root, |e.procname.value|, e.procname.value) && r.value.tree[root] == t[root]
  {
    var d := Lookup(t, root, |e.procname.value|, e.procname.value).value;
    assert d > root;
    DescendKeepsOlder(t, next, e.(de := Some(d)));
  }

  /** An entry whose create fails, which with failure injection suppressed
    * means an empty procname, is skipped: nothing changes and nothing is
    * recorded. */
  lemma FailedCreateSkipped(t: Tree, next: Id, root: Id, e: CtlEntry)
    requires root in t && Below(t, next)
    requires e.procname == Some("") && (e.handler || e.child.Some?)
    requires e.handler || Lookup(t, root, 0, "").None?
    ensures RegisterEntry(t, next, root, e) == Ok(EntryRegistered(t, next, e))
  {
  }

  /** Unregistering a directory entry keeps it, and its `de`, exactly when
    * the directory still has entries after its child table is
    * unregistered. */
  lemma NonEmptyDirectoryKept(t: Tree, root: Id, e: CtlEntry, ignore: bool)
    requires root in t && e.de.Some? && e.de.value in t && IsDir(t[e.de.value]) && e.child.Some?
    ensures var r := UnregisterEntry(t, root, e, ignore);
      r.Ok? ==> (r.value.entry.de == e.de <==> r.value.tree[e.de.value].subdir != [])
  {
    var de := e.de.value;
    var c := UnregisterFrom(t, de, e.child.value, 0, ignore);
    if c.Ok? && c.value.tree[de].subdir == [] {
      RemoveTouches(c.value.tree, root, e.(child := Some(c.value.table)), ignore);
    }
  }

  // ------------------------------------------------------------------
  // Registering and then unregistering a table
  // ------------------------------------------------------------------

  /** The identities recorded in entries `i..`, the latest registered first:
    * the order in which they head their directory's child list. */
  function RecordedFrom(table: CtlTable, i: nat): seq<Id>
    requires i <= |table.entries|
    decreases |table.entries| - i
  {
    if i == |table.entries| then []
    else RecordedFrom(table, i + 1) + (if table.entries[i].de.Some? then [table.entries[i].de.value] else [])
  }

  /** Every identity recorded in entries `i..` and in their child tables. */
  function OwnedFrom(table: CtlTable, i: nat): set<Id>
    requires i <= |table.entries|
    decreases table, |table.entries| - i
  {
    if i == |table.entries| then {} else Owned(table.entries[i]) + OwnedFrom(table, i + 1)
  }

  function Owned(e: CtlEntry): set<Id>
    decreases e
  {
    (if e.de.Some? then {e.de.value} else {}) + (if e.child.Some? then OwnedFrom(e.child.value, 0) else {})
  }

  /** A table that registers in full: every entry has a non-empty procname
    * and nothing recorded yet; an entry with a handler has no child table
    * and no directory bit, one without has a child table of the same kind;
    * and no two entries share a procname. */
  ghost predicate FreshFrom(table: CtlTable, i: nat)
    requires i <= |table.entries|
    decreases table, |table.entries| - i
  {
    i == |table.entries| ||
    (&& FreshEntry(table.entries[i])
     && (forall j :: i < j < |table.entries| ==> table.entries[j].procname != table.entries[i].procname)
     && FreshFrom(table, i + 1))
  }

  ghost predicate FreshEntry(e: CtlEntry)
    decreases e
  {
    && e.procname.Some? && e.procname.value != "" && e.de.None?
    && if e.handler then e.child.None? && e.mode & S_IFDIR == 0
       else e.child.Some? && FreshFrom(e.child.value, 0)
  }

  /** `root` has no child that a directory entry from `i` on would reuse. */
  ghost predicate AbsentFrom(t: Tree, root: Id, table: CtlTable, i: nat)
    requires i <= |table.entries|
  {
    forall j :: i <= j < |table.entries| && !table.entries[j].handler && table.entries[j].procname.Some? ==>
      Lookup(t, root, |table.entries[j].procname.value|, table.entries[j].procname.value).None?
  }

  /** The tree holds what registering entries `i..` under `root` made:
    * `root`'s children are the recorded identities, latest first, on top of
    * `below`, and each entry is laid out as `LaidOut` says. */
  ghost predicate HoldsFrom(t: Tree, root: Id, table: CtlTable, i: nat, below: seq<Id>)
    requires i <= |table.entries|
    decreases table, |table.entries| - i, 1
  {
    root in t && t[root].subdir == RecordedFrom(table, i) + below && LaidOutFrom(t, root, table, i)
  }

  ghost predicate LaidOutFrom(t: Tree, root: Id, table: CtlTable, i: nat)
    requires i <= |table.entries|
    decreases table, |table.entries| - i, 0
  {
    i == |table.entries| ||
    (&& LaidOut(t, root, table.entries[i])
     && (forall j :: i < j < |table.entries| ==> table.entries[j].procname != table.entries[i].procname)
     && Owned(table.entries[i]) !! OwnedFrom(table, i + 1)
     && LaidOutFrom(t, root, table, i + 1))
  }

  /** One entry as registering made it: recorded, named after its
    * procname, a directory exactly when it has a child table, which the
    * tree holds under it in turn; `root` is none of the entry's own. */
  ghost predicate LaidOut(t: Tree, root: Id, e: CtlEntry)
    decreases e
  {
    && e.procname.Some? && e.de.Some? && e.de.value in t && root !in Owned(e)
    && t[e.de.value].name == e.procname.value && t[e.de.value].namelen == |e.procname.value|
    && (IsDir(t[e.de.value]) <==> e.child.Some?)
    && (e.child.Some? ==> HoldsFrom(t, e.de.value, e.child.value, 0, []))
  }

  /** The trees agree on the identities in `s`. */
  ghost predicate AgreeOn(t: Tree, t': Tree, s: set<Id>)
  {
    forall d :: d in s ==> (d in t <==> d in t') && (d in t ==> t[d] == t'[d])
  }

  lemma {:induction false} HoldsFrame(t: Tree, t': Tree, root: Id, table: CtlTable, i: nat, below: seq<Id>)
    requires i <= |table.entries| && AgreeOn(t, t', {root} + OwnedFrom(table, i))
    ensures HoldsFrom(t, root, table, i, below) == HoldsFrom(t', root, table, i, below)
    decreases table, |table.entries| - i, 1
  {
    LaidOutFromFrame(t, t', root, table, i);
  }

  lemma {:induction false} LaidOutFromFrame(t: Tree, t': Tree, root: Id, table: CtlTable, i: nat)
    requires i <= |table.entries| && AgreeOn(t, t', OwnedFrom(table, i))
    ensures LaidOutFrom(t, root, table, i) == LaidOutFrom(t', root, table, i)
    decreases table, |table.entries| - i, 0
  {
    if i < |table.entries| {
      LaidOutFrame(t, t', root, table.entries[i]);
      LaidOutFromFrame(t, t', root, table, i + 1);
    }
  }

  lemma {:induction false} LaidOutFrame(t: Tree, t': Tree, root: Id, e: CtlEntry)
    requires AgreeOn(t, t', Owned(e))
    ensures LaidOut(t, root, e) == LaidOut(t', root, e)
    decreases e
  {
    if e.de.Some? && e.child.Some? {
      HoldsFrame(t, t', e.de.value, e.child.value, 0, []);
    }
  }

  /** Two tables with the same entries from `i` on record, own and lay out
    * the same from there. */
  lemma {:induction false} SameFrom(a: CtlTable, b: CtlTable, i: nat, t: Tree, root: Id)
    requires i <= |a.entries| == |b.entries|
    requires forall j :: i <= j < |a.entries| ==> a.entries[j] == b.entries[j]
    ensures RecordedFrom(a, i) == RecordedFrom(b, i) && OwnedFrom(a, i) == OwnedFrom(b, i)
    ensures LaidOutFrom(t, root, a, i) == LaidOutFrom(t, root, b, i)
    decreases |a.entries| - i
  {
    if i < |a.entries| {
      SameFrom(a, b, i + 1, t, root);
    }
  }

  // ---- registering a fresh table lays it out ----

  /** A directory entry's name is not found under `root` after a differently
    * named child is put at the head of its list. */
  lemma LookupPrepended(t: Tree, t': Tree, root: Id, id: Id, nm: string, n2: string)
    requires root in t && root in t' && Closed(t)
    requires t'[root].subdir == [id] + t[root].subdir
    requires forall x :: x in t && x != root ==> x in t' && t'[x] == t[x]
    requires id in t' && t'[id].name == nm && t'[id].namelen == |nm| && nm != n2
    requires Lookup(t, root, |n2|, n2).None?
    ensures Lookup(t', root, |n2|, n2).None?
  {
    var kids, kids' := t[root].subdir, t'[root].subdir;
    forall k | 0 <= k < |kids'|
      ensures !Matches(t', kids'[k], |n2|, n2)
    {
      if k == 0 {
        assert n2[..|n2|] == n2;
      } else {
        assert kids'[k] == kids[k - 1];
        assert !Matches(t, kids[k - 1], |n2|, n2);
      }
    }
  }

  /** The entry created for `e`, laid out with what registering its child
    * table under it made. */
  lemma {:induction false} CreatedHolds(t: Tree, t1: Tree, next: Id, root: Id, e: CtlEntry, ent: Entry)
    requires root in t && Below(t, next) && Closed(t) && FreshEntry(e)
    requires ent.name == e.procname.value && ent.namelen == |ent.name| && ent.subdir == [] && ent.mode == TableMode(e)
    requires t1 == Register(t, root, next, ent)
    ensures var r := Descend(t1, next + 1, e.(de := Some(next)));
      && r.Ok? && r.value.entry.de == Some(next) && r.value.entry.procname == e.procname
      && LaidOut(r.value.tree, root, r.value.entry)
      && (forall x :: x in Owned(r.value.entry) ==> next <= x < r.value.next)
      && (forall d :: d in t1 && d != next ==> r.value.tree[d] == t1[d])
      && (forall d :: d in r.value.tree && d !in t1 ==> next < d)
    decreases e, 0
  {
    RegisterKeepsClosed(t, root, next, ent);
    if !e.handler {
      RegisterHolds(t1, next + 1, next, e.child.value, 0);
    }
  }

  /** One fresh entry: a new child of `root`, laid out. */
  lemma {:induction false} RegisterEntryHolds(t: Tree, next: Id, root: Id, e: CtlEntry)
    requires root in t && Below(t, next) && Closed(t) && FreshEntry(e)
    requires !e.handler ==> Lookup(t, root, |e.procname.value|, e.procname.value).None?
    ensures var r := RegisterEntry(t, next, root, e);
      r.Ok? && EntryRegisteredOver(t, next, root, r.value)
    decreases e, 1
  {
    var n := e.procname.value;
    var c := ProcCreate(t, Some(root), Some(n), TableMode(e), false);
    var ent := c.value.entry.(data := Some(e.addr));
    CreatedHolds(t, Register(t, root, next, ent), next, root, e, ent);
  }

  /** What registering entries `i..` of a table under `root` in `t` from
    * `next` on left in `r`: the tree holds the table laid out under `root`
    * on top of `root`'s old children, with identities from `next` on;
    * nothing else that was there changes. */
  ghost predicate RegisteredOver(t: Tree, next: Id, root: Id, r: Registered, i: nat)
    requires root in t && i <= |r.table.entries|
  {
    && HoldsFrom(r.tree, root, r.table, i, t[root].subdir)
    && next <= r.next && (forall x :: x in OwnedFrom(r.table, i) ==> next <= x < r.next)
    && t.Keys <= r.tree.Keys
    && r.tree[root] == t[root].(subdir := r.tree[root].subdir)
    && (forall d :: d in t && d != root ==> r.tree[d] == t[d])
    && (forall d :: d in r.tree && d !in t ==> next <= d)
  }

  /** Registering a fresh table none of whose directory names `root` has
    * yet succeeds, and lays the table out under `root`. */
  lemma {:induction false} RegisterHolds(t: Tree, next: Id, root: Id, table: CtlTable, i: nat)
    requires root in t && Below(t, next) && Closed(t) && i <= |table.entries|
    requires FreshFrom(table, i) && AbsentFrom(t, root, table, i)
    ensures var r := RegisterFrom(t, next, root, table, i);
      r.Ok? && RegisteredOver(t, next, root, r.value, i)
    decreases table, |table.entries| - i
  {
    if i < |table.entries| {
      var e := table.entries[i];
      RegisterEntryHolds(t, next, root, e);
      var s := RegisterEntry(t, next, root, e).value;
      forall j | i + 1 <= j < |table.entries| && !table.entries[j].handler && table.entries[j].procname.Some?
        ensures Lookup(s.tree, root, |table.entries[j].procname.value|, table.entries[j].procname.value).None?
      {
        LookupPrepended(t, s.tree, root, next, e.procname.value, table.entries[j].procname.value);
      }
      RegisterHolds(s.tree, s.next, root, table, i + 1);
      var rest := RegisterFrom(s.tree, s.next, root, table, i + 1).value;
      assert RegisterFrom(t, next, root, table, i) == Ok(rest.(table := CtlTable(rest.table.entries[i := s.entry])));
      HoldsStep(t, next, root, table, i, s, rest);
    }
  }

  /** What registering one fresh entry under `root` in `t` from `next` on
    * left in `s`: a new child at the head of `root`'s list, laid out. */
  ghost predicate EntryRegisteredOver(t: Tree, next: Id, root: Id, s: EntryRegistered)
    requires root in t
  {
    && s.entry.de == Some(next) && LaidOut(s.tree, root, s.entry)
    && (forall x :: x in Owned(s.entry) ==> next <= x < s.next)
    && t.Keys <= s.tree.Keys
    && s.tree[root] == t[root].(subdir := [next] + t[root].subdir)
    && (forall d :: d in t && d != root ==> s.tree[d] == t[d])
    && (forall d :: d in s.tree && d !in t ==> next <= d)
  }

  /** The step of `RegisterHolds`: the entry just laid out, put in front of
    * the rest. */
  lemma HoldsStep(t: Tree, next: Id, root: Id, table: CtlTable, i: nat, s: EntryRegistered, rest: Registered)
    requires root in t && i < |table.entries| && FreshFrom(table, i)
    requires s.entry.procname == table.entries[i].procname && EntryRegisteredOver(t, next, root, s)
    requires |rest.table.entries| == |table.entries|
    requires forall k :: i < k < |table.entries| ==> rest.table.entries[k].procname == table.entries[k].procname
    requires root in s.tree && RegisteredOver(s.tree, s.next, root, rest, i + 1)
    ensures RegisteredOver(t, next, root, rest.(table := CtlTable(rest.table.entries[i := s.entry])), i)
  {
    var t' := CtlTable(rest.table.entries[i := s.entry]);
    SameFrom(t', rest.table, i + 1, rest.tree, root);
    StepLaidOut(next, root, s, rest);
    StepHolds(t[root].subdir, next, root, table, i, s, rest);
    assert OwnedFrom(t', i) == Owned(s.entry) + OwnedFrom(t', i + 1);
  }

  /** The tree part of the step: the new entry in front of the rest. */
  lemma StepHolds(below: seq<Id>, next: Id, root: Id, table: CtlTable, i: nat, s: EntryRegistered, rest: Registered)
    requires i < |table.entries| && |rest.table.entries| == |table.entries|
    requires forall j :: i < j < |table.entries| ==> rest.table.entries[j].procname != s.entry.procname
    requires s.entry.de == Some(next) && LaidOut(rest.tree, root, s.entry)
    requires Owned(s.entry) !! OwnedFrom(rest.table, i + 1)
    requires HoldsFrom(rest.tree, root, rest.table, i + 1, [next] + below)
    ensures HoldsFrom(rest.tree, root, CtlTable(rest.table.entries[i := s.entry]), i, below)
  {
    var t' := CtlTable(rest.table.entries[i := s.entry]);
    SameFrom(t', rest.table, i + 1, rest.tree, root);
    assert RecordedFrom(t', i) == RecordedFrom(t', i + 1) + [next];
  }

  /** The entry just laid out stays laid out while the rest is registered. */
  lemma StepLaidOut(next: Id, root: Id, s: EntryRegistered, rest: Registered)
    requires LaidOut(s.tree, root, s.entry) && (forall x :: x in Owned(s.entry) ==> next <= x < s.next)
    requires forall d :: d in s.tree && d < next ==> d == root || d !in Owned(s.entry)
    requires forall d :: d in s.tree && d != root ==> d in rest.tree && rest.tree[d] == s.tree[d]
    requires forall d :: d in rest.tree && d !in s.tree ==> s.next <= d
    ensures LaidOut(rest.tree, root, s.entry)
  {
    assert AgreeOn(s.tree, rest.tree, Owned(s.entry));
    LaidOutFrame(s.tree, rest.tree, root, s.entry);
  }

  // ---- unregistering a laid-out table takes it away again ----

  /** `t'` has the entries of `t`, changed at most in their child lists. */
  ghost predicate Relinked(t: Tree, t': Tree)
  {
    t.Keys == t'.Keys && forall d :: d in t ==> t'[d] == t[d].(subdir := t'[d].subdir)
  }

  /** The first match of a child list is at `m` when the children before it
    * do not match and the one at `m` does. */
  lemma {:induction false} FirstMatchAt(t: Tree, kids: seq<Id>, len: nat, name: string, i: nat, m: nat)
    requires len <= |name| && i <= m < |kids| && Matches(t, kids[m], len, name)
    requires forall k :: i <= k < m ==> !Matches(t, kids[k], len, name)
    ensures MatchIndex(t, kids, len, name, i) == Some(m)
    decreases m - i
  {
    if i < m {
      FirstMatchAt(t, kids, len, name, i + 1, m);
    }
  }

  /** Removing an entry whose child follows `later`, none of which it
    * matches, unlinks exactly that child. */
  lemma RemoveAt(t: Tree, root: Id, e: CtlEntry, later: seq<Id>, below: seq<Id>, ignore: bool)
    requires root in t && e.procname.Some? && e.de.Some?
    requires t[root].subdir == later + [e.de.value] + below
    requires Matches(t, e.de.value, |e.procname.value|, e.procname.value)
    requires forall k :: 0 <= k < |later| ==> !Matches(t, later[k], |e.procname.value|, e.procname.value)
    ensures Remove(t, root, e, ignore) == Ok(EntryUnregistered(t[root := t[root].(subdir := later + below)], e.(de := None)))
  {
    var n := e.procname.value;
    var kids := t[root].subdir;
    FirstMatchAt(t, kids, |n|, n, 0, |later|);
    assert kids[..|later|] + kids[|later| + 1..] == later + below;
  }

  /** Unregistering changes child lists only, and only those of `root` and
    * of the table's own entries. */
  lemma {:induction false} UnregisterTouches(t: Tree, root: Id, table: CtlTable, i: nat, ignore: bool)
    requires root in t && i <= |table.entries|
    ensures var r := UnregisterFrom(t, root, table, i, ignore);
      r.Ok? ==> Relinked(t, r.value.tree) && forall d :: d in t && d != root && d !in OwnedFrom(table, i) ==> r.value.tree[d] == t[d]
    decreases table, |table.entries| - i
  {
    if i < |table.entries| {
      var s := UnregisterEntry(t, root, table.entries[i], ignore);
      if s.Ok? {
        UnregisterEntryTouches(t, root, table.entries[i], ignore);
        UnregisterTouches(s.value.tree, root, table, i + 1, ignore);
      }
    }
  }

  lemma {:induction false} UnregisterEntryTouches(t: Tree, root: Id, e: CtlEntry, ignore: bool)
    requires root in t
    ensures var r := UnregisterEntry(t, root, e, ignore);
      r.Ok? ==> Relinked(t, r.value.tree) && forall d :: d in t && d != root && d !in Owned(e) ==> r.value.tree[d] == t[d]
    decreases e
  {
    if e.de.Some? && e.de.value in t {
      if !IsDir(t[e.de.value]) {
        RemoveTouches(t, root, e, ignore);
      } else if e.child.Some? {
        var de := e.de.value;
        UnregisterTouches(t, de, e.child.value, 0, ignore);
        var c := UnregisterFrom(t, de, e.child.value, 0, ignore);
        if c.Ok? && c.value.tree[de].subdir == [] {
          RemoveTouches(c.value.tree, root, e.(child := Some(c.value.table)), ignore);
        }
      }
    }
  }

  /** Removing changes `root`'s child list only. */
  lemma RemoveTouches(t: Tree, root: Id, e: CtlEntry, ignore: bool)
    requires root in t
    ensures var r := Remove(t, root, e, ignore);
      r.Ok? ==> Relinked(t, r.value.tree) && forall d :: d in t && d != root ==> r.value.tree[d] == t[d]
  {
  }

  /** The recorded identities are the table's own. */
  lemma {:induction false} RecordedOwned(table: CtlTable, i: nat)
    requires i <= |table.entries|
    ensures forall x :: x in RecordedFrom(table, i) ==> x in OwnedFrom(table, i)
    decreases |table.entries| - i
  {
    if i < |table.entries| {
      RecordedOwned(table, i + 1);
    }
  }

  /** A laid-out table does not own the directory it is laid out under. */
  lemma {:induction false} RootNotOwned(t: Tree, root: Id, table: CtlTable, i: nat)
    requires i <= |table.entries| && LaidOutFrom(t, root, table, i)
    ensures root !in OwnedFrom(table, i)
    decreases |table.entries| - i
  {
    if i < |table.entries| {
      RootNotOwned(t, root, table, i + 1);
    }
  }

  /** No recorded child of entries `i..` matches a name none of them has. */
  lemma {:induction false} LaterUnmatched(t: Tree, root: Id, table: CtlTable, i: nat, n: string)
    requires i <= |table.entries| && LaidOutFrom(t, root, table, i)
    requires forall j :: i <= j < |table.entries| ==> table.entries[j].procname != Some(n)
    ensures forall k :: 0 <= k < |RecordedFrom(table, i)| ==> !Matches(t, RecordedFrom(table, i)[k], |n|, n)
    decreases |table.entries| - i
  {
    if i < |table.entries| {
      LaterUnmatched(t, root, table, i + 1, n);
      var e := table.entries[i];
      assert LaidOut(t, root, e);
      var m := e.procname.value;
      if |m| == |n| {
        assert m[..|n|] == m && n[..|n|] == n;
      }
      assert !Matches(t, e.de.value, |n|, n);
      assert RecordedFrom(table, i) == RecordedFrom(table, i + 1) + [e.de.value];
    }
  }

  /** Unregistering one laid-out entry whose child follows `later` and
    * heads `below`: it succeeds, takes the child out of `root`'s list and
    * clears the entry's `de`. */
  lemma {:induction false} UnregisterEntryRestores(t: Tree, root: Id, e: CtlEntry, later: seq<Id>, below: seq<Id>, ignore: bool)
    requires root in t && LaidOut(t, root, e) && t[root].subdir == later + [e.de.value] + below
    requires forall k :: 0 <= k < |later| ==> later[k] != root && later[k] !in Owned(e)
    requires forall k :: 0 <= k < |later| ==> !Matches(t, later[k], |e.procname.value|, e.procname.value)
    ensures var r := UnregisterEntry(t, root, e, ignore);
      r.Ok? && r.value.tree[root].subdir == later + below && r.value.entry.de.None?
    decreases e
  {
    var n, id := e.procname.value, e.de.value;
    assert n[..|n|] == n;
    if e.child.None? {
      RemoveAt(t, root, e, later, below, ignore);
    } else {
      var child := e.child.value;
      UnregisterRestores(t, id, child, 0, [], ignore);
      UnregisterTouches(t, id, child, 0, ignore);
      var c := UnregisterFrom(t, id, child, 0, ignore).value;
      var e1 := e.(child := Some(c.table));
      forall k | 0 <= k < |later|
        ensures !Matches(c.tree, later[k], |n|, n)
      {
        assert later[k] !in OwnedFrom(child, 0) && later[k] != id;
      }
      RemoveAt(c.tree, root, e1, later, below, ignore);
    }
  }

  /** Unregistering a laid-out table from entry `i` on succeeds, leaves
    * `root` its children from before, and clears every entry's `de`. */
  lemma {:induction false} UnregisterRestores(t: Tree, root: Id, table: CtlTable, i: nat, below: seq<Id>, ignore: bool)
    requires i <= |table.entries| && HoldsFrom(t, root, table, i, below)
    ensures var r := UnregisterFrom(t, root, table, i, ignore);
      && r.Ok? && r.value.tree[root].subdir == below
      && forall k :: i <= k < |table.entries| ==> r.value.table.entries[k].de.None?
    decreases table, |table.entries| - i
  {
    if i < |table.entries| {
      var e := table.entries[i];
      var later := RecordedFrom(table, i + 1);
      assert LaidOut(t, root, e);
      assert t[root].subdir == later + [e.de.value] + below;
      RecordedOwned(table, i + 1);
      RootNotOwned(t, root, table, i + 1);
      LaterUnmatched(t, root, table, i + 1, e.procname.value);
      UnregisterEntryRestores(t, root, e, later, below, ignore);
      UnregisterEntryTouches(t, root, e, ignore);
      var s := UnregisterEntry(t, root, e, ignore).value;
      LaidOutFromFrame(t, s.tree, root, table, i + 1);
      UnregisterRestores(s.tree, root, table, i + 1, below, ignore);
    }
  }

  /** Registering a fresh table under `root`, none of whose directory names
    * `root` has yet, and then unregistering the table registering returned,
    * gives the tree back: every entry that was there is as it was, and
    * every entry's `de` is cleared again. The entries registering added stay
    * in the tree, unreachable, where the C code frees them. */
  lemma TableRoundTrip(t: Tree, next: Id, root: Id, table: CtlTable, ignore: bool)
    requires root in t && Below(t, next) && Closed(t)
    requires FreshFrom(table, 0) && AbsentFrom(t, root, table, 0)
    ensures var r := RegisterFrom(t, next, root, table, 0);
      && r.Ok?
      && var u := UnregisterFrom(r.value.tree, root, r.value.table, 0, ignore);
      && u.Ok?
      && (forall d :: d in t ==> d in u.value.tree && u.value.tree[d] == t[d])
      && (forall k :: 0 <= k < |table.entries| ==> u.value.table.entries[k].de.None?)
  {
    RegisterHolds(t, next, root, table, 0);
    var r := RegisterFrom(t, next, root, table, 0).value;
    UnregisterRestores(r.tree, root, r.table, 0, t[root].subdir, ignore);
    UnregisterTouches(r.tree, root, r.table, 0, ignore);
  }

  // ------------------------------------------------------------------
  // register_sysctl_table and unregister_sysctl_table
  // ------------------------------------------------------------------

  /** `register_sysctl_table(table, insert_at_head)`: an injected failure
    * (`fail` is the answer of `should_i_fail`) returns no header and
    * changes nothing; otherwise the table is registered under
    * `proc_sys_root` (`sysRoot`) with failure injection suppressed, and the
    * header holds the table with its `de` fields written. */
  function RegisterSysctlTable(t: Tree, next: Id, sysRoot: Id, table: CtlTable, fail: bool): (r: Result<Option<Registered>>)
    requires sysRoot in t && Below(t, next)
    ensures fail ==> r == Ok(None)
    ensures !fail && r.Ok? ==> r.value.Some? && |r.value.value.table.entries| == |table.entries|
    ensures !fail && r.Ok? ==> Below(r.value.value.tree, r.value.value.next) && t.Keys <= r.value.value.tree.Keys
  {
    if fail then Ok(None)
    else match RegisterFrom(t, next, sysRoot, table, 0)
      case Barf => Barf
      case Ok(reg) => Ok(Some(reg))
  }

  /** `unregister_sysctl_table(header)`: the header's table unregistered
    * from `proc_sys_root`. */
  function UnregisterSysctlTable(t: Tree, sysRoot: Id, header: CtlTable, ignore: bool): (r: Result<Unregistered>)
    requires sysRoot in t
    ensures r.Ok? ==> r.value.tree.Keys == t.Keys && |r.value.table.entries| == |header.entries|
  {
    UnregisterFrom(t, sysRoot, header, 0, ignore)
  }

  /** A fresh table registered by `register_sysctl_table` and unregistered
    * by `unregister_sysctl_table` leaves every entry of `/proc` that was
    * there as it was. */
  lemma SysctlRoundTrip(t: Tree, next: Id, sysRoot: Id, table: CtlTable, fail: bool, ignore: bool)
    requires sysRoot in t && Below(t, next) && Closed(t)
    requires FreshFrom(table, 0) && AbsentFrom(t, sysRoot, table, 0)
    ensures var r := RegisterSysctlTable(t, next, sysRoot, table, fail);
      && r.Ok?
      && (r.value.None? <==> fail)
      && (r.value.Some? ==>
           var u := UnregisterSysctlTable(r.value.value.tree, sysRoot, r.value.value.table, ignore);
           u.Ok? && forall d :: d in t ==> d in u.value.tree && u.value.tree[d] == t[d])
  {
    if !fail {
      TableRoundTrip(t, next, sysRoot, table, ignore);
    }
  }

  // ------------------------------------------------------------------
  // The walks over the simulator's tree
  // ------------------------------------------------------------------

  /** The table with the first `|done|` entries replaced by `done`. */
  function Patched(r: Result<Registered>, done: seq<CtlEntry>): Result<Registered>
  {
    match r
    case Barf => Barf
    case Ok(x) =>
      if |done| <= |x.table.entries| then Ok(x.(table := CtlTable(done + x.table.entries[|done|..])))
      else Barf
  }

  function UnPatched(r: Result<Unregistered>, done: seq<CtlEntry>): Result<Unregistered>
  {
    match r
    case Barf => Barf
    case Ok(x) =>
      if |done| <= |x.table.entries| then Ok(x.(table := CtlTable(done + x.table.entries[|done|..])))
      else Barf
  }

  /** `register_proc_table`: the loop over the table registers each entry
    * as `RegisterFrom` states, and returns the table with its `de` fields
    * written. */
  method RegisterProcTable(proc: ProcRoot, table: CtlTable, root: Id) returns (r: Result<CtlTable>)
    requires proc.Valid() && root in proc.entries
    modifies proc
    ensures proc.Valid() && proc.ignoreProcIssues == old(proc.ignoreProcIssues)
    ensures var f := RegisterFrom(old(proc.entries), old(proc.next), root, table, 0);
      && (r.Barf? <==> f.Barf?)
      && (r.Ok? ==> r.value == f.value.table && proc.entries == f.value.tree && proc.next == f.value.next)
    decreases table, 0
  {
    var done: seq<CtlEntry> := [];
    var i := 0;
    ghost var target := RegisterFrom(proc.entries, proc.next, root, table, 0);
    RegisterStart(proc.entries, proc.next, root, table);
    while i < |table.entries|
      invariant i <= |table.entries| && |done| == i
      invariant proc.Valid() && root in proc.entries && proc.ignoreProcIssues == old(proc.ignoreProcIssues)
      invariant Patched(RegisterFrom(proc.entries, proc.next, root, table, i), done) == target
    {
      RegisterStep(proc.entries, proc.next, root, table, i, done);
      var e := RegisterTableEntry(proc, table.entries[i], root);
      if e.Barf? {
        return Barf;
      }
      done := done + [e.value];
      i := i + 1;
    }
    RegisterEnd(proc.entries, proc.next, root, table, done);
    return Ok(CtlTable(done));
  }

  /** At the start nothing is patched in. */
  lemma RegisterStart(t: Tree, next: Id, root: Id, table: CtlTable)
    requires root in t && Below(t, next)
    ensures Patched(RegisterFrom(t, next, root, table, 0), []) == RegisterFrom(t, next, root, table, 0)
  {
    var f := RegisterFrom(t, next, root, table, 0);
    if f.Ok? {
      assert [] + f.value.table.entries[0..] == f.value.table.entries;
    }
  }

  lemma UnregisterStart(t: Tree, root: Id, table: CtlTable, ignore: bool)
    requires root in t
    ensures UnPatched(UnregisterFrom(t, root, table, 0, ignore), []) == UnregisterFrom(t, root, table, 0, ignore)
  {
    var f := UnregisterFrom(t, root, table, 0, ignore);
    if f.Ok? {
      assert [] + f.value.table.entries[0..] == f.value.table.entries;
    }
  }

  /** At the end of the table the walk has patched in every entry. */
  lemma RegisterEnd(t: Tree, next: Id, root: Id, table: CtlTable, done: seq<CtlEntry>)
    requires root in t && Below(t, next) && |done| == |table.entries|
    ensures Patched(RegisterFrom(t, next, root, table, |table.entries|), done) == Ok(Registered(t, next, CtlTable(done)))
  {
    assert done + table.entries[|done|..] == done;
  }

  /** Unfolding one pass of `RegisterFrom` moves the entry into `done`. */
  lemma RegisterStep(t: Tree, next: Id, root: Id, table: CtlTable, i: nat, done: seq<CtlEntry>)
    requires root in t && Below(t, next) && i < |table.entries| && |done| == i
    ensures RegisterEntry(t, next, root, table.entries[i]).Barf? ==> Patched(RegisterFrom(t, next, root, table, i), done).Barf?
    ensures RegisterEntry(t, next, root, table.entries[i]).Ok? ==>
      var s := RegisterEntry(t, next, root, table.entries[i]).value;
      Patched(RegisterFrom(t, next, root, table, i), done)
        == Patched(RegisterFrom(s.tree, s.next, root, table, i + 1), done + [s.entry])
  {
    if RegisterEntry(t, next, root, table.entries[i]).Barf? {
      return;
    }
    var s := RegisterEntry(t, next, root, table.entries[i]).value;
    var rest := RegisterFrom(s.tree, s.next, root, table, i + 1);
    if rest.Ok? {
      var es := rest.value.table.entries;
      assert done + es[i := s.entry][i..] == done + [s.entry] + es[i + 1..];
    }
  }

  /** One pass of `register_proc_table`'s loop, as `RegisterEntry` states:
    * the child lookup walks `root`'s children, the create goes through
    * `create_proc_entry` and is followed by `de->data = table`. */
  method RegisterTableEntry(proc: ProcRoot, e: CtlEntry, root: Id) returns (r: Result<CtlEntry>)
    requires proc.Valid() && root in proc.entries
    modifies proc
    ensures proc.Valid() && proc.ignoreProcIssues == old(proc.ignoreProcIssues)
    ensures var f := RegisterEntry(old(proc.entries), old(proc.next), root, e);
      && (r.Barf? <==> f.Barf?)
      && (r.Ok? ==> r.value == f.value.entry && proc.entries == f.value.tree && proc.next == f.value.next)
    decreases e
  {
    if e.procname.None? {
      return Ok(e);
    }
    if !e.handler && e.child.None? {
      return Barf;
    }
    var n := e.procname.value;
    var de: Option<Id> := None;
    if !e.handler {
      de := proc.FindChild(root, |n|, n);
    }
    if de.None? {
      ghost var t0 := proc.entries;
      var created := proc.CreateProcEntry(Some(n), TableMode(e), Some(root), false);
      if created.None? {
        return Ok(e);
      }
      var id := created.value;
      proc.entries := proc.entries[id := proc.entries[id].(data := Some(e.addr))];
      CreatedWithData(t0, root, id, n, e);
      de := created;
    }
    r := DescendInto(proc, e.(de := de));
  }

  /** Creating then setting `data` is registering the entry with its data. */
  lemma CreatedWithData(t: Tree, root: Id, id: Id, n: string, e: CtlEntry)
    requires root in t && id !in t && ProcCreate(t, Some(root), Some(n), TableMode(e), false).Some?
    ensures var c := ProcCreate(t, Some(root), Some(n), TableMode(e), false).value;
      var t1 := Register(t, c.dir, id, c.entry);
      t1[id := t1[id].(data := Some(e.addr))] == Register(t, root, id, c.entry.(data := Some(e.addr)))
  {
  }

  /** `table->de = de` and the descent into a directory, as `Descend` states. */
  method DescendInto(proc: ProcRoot, e: CtlEntry) returns (r: Result<CtlEntry>)
    requires proc.Valid() && e.de.Some? && e.de.value in proc.entries
    modifies proc
    ensures proc.Valid() && proc.ignoreProcIssues == old(proc.ignoreProcIssues)
    ensures var f := Descend(old(proc.entries), old(proc.next), e);
      && (r.Barf? <==> f.Barf?)
      && (r.Ok? ==> r.value == f.value.entry && proc.entries == f.value.tree && proc.next == f.value.next)
    decreases e.child
  {
    var de := e.de.value;
    if !IsDir(proc.entries[de]) {
      return Ok(e);
    }
    if e.child.None? {
      return Barf;
    }
    var c := RegisterProcTable(proc, e.child.value, de);
    if c.Barf? {
      return Barf;
    }
    return Ok(e.(child := Some(c.value)));
  }

  /** `unregister_proc_table`: the loop over the table unregisters each
    * entry as `UnregisterFrom` states. */
  method UnregisterProcTable(proc: ProcRoot, table: CtlTable, root: Id) returns (r: Result<CtlTable>)
    requires proc.Valid() && root in proc.entries
    modifies proc
    ensures proc.Valid() && proc.next == old(proc.next) && proc.ignoreProcIssues == old(proc.ignoreProcIssues)
    ensures var f := UnregisterFrom(old(proc.entries), root, table, 0, old(proc.ignoreProcIssues));
      && (r.Barf? <==> f.Barf?)
      && (r.Ok? ==> r.value == f.value.table && proc.entries == f.value.tree)
    decreases table, 0
  {
    var done: seq<CtlEntry> := [];
    var i := 0;
    var ignore := proc.ignoreProcIssues;
    ghost var target := UnregisterFrom(proc.entries, root, table, 0, ignore);
    UnregisterStart(proc.entries, root, table, ignore);
    while i < |table.entries|
      invariant i <= |table.entries| && |done| == i
      invariant proc.Valid() && root in proc.entries
      invariant proc.next == old(proc.next) && proc.ignoreProcIssues == ignore == old(proc.ignoreProcIssues)
      invariant UnPatched(UnregisterFrom(proc.entries, root, table, i, ignore), done) == target
    {
      UnregisterStep(proc.entries, root, table, i, ignore, done);
      var e := UnregisterTableEntry(proc, table.entries[i], root);
      if e.Barf? {
        return Barf;
      }
      done := done + [e.value];
      i := i + 1;
    }
    UnregisterEnd(proc.entries, root, table, ignore, done);
    return Ok(CtlTable(done));
  }

  /** At the end of the table the walk has patched in every entry. */
  lemma UnregisterEnd(t: Tree, root: Id, table: CtlTable, ignore: bool, done: seq<CtlEntry>)
    requires root in t && |done| == |table.entries|
    ensures UnPatched(UnregisterFrom(t, root, table, |table.entries|, ignore), done) == Ok(Unregistered(t, CtlTable(done)))
  {
    assert done + table.entries[|done|..] == done;
  }

  /** Unfolding one pass of `UnregisterFrom` moves the entry into `done`. */
  lemma UnregisterStep(t: Tree, root: Id, table: CtlTable, i: nat, ignore: bool, done: seq<CtlEntry>)
    requires root in t && i < |table.entries| && |done| == i
    ensures UnregisterEntry(t, root, table.entries[i], ignore).Barf? ==> UnPatched(UnregisterFrom(t, root, table, i, ignore), done).Barf?
    ensures UnregisterEntry(t, root, table.entries[i], ignore).Ok? ==>
      var s := UnregisterEntry(t, root, table.entries[i], ignore).value;
      UnPatched(UnregisterFrom(t, root, table, i, ignore), done)
        == UnPatched(UnregisterFrom(s.tree, root, table, i + 1, ignore), done + [s.entry])
  {
    var u := UnregisterEntry(t, root, table.entries[i], ignore);
    if u.Ok? {
      UnregisterStepOk(t, root, table, i, ignore, done, u.value);
    }
  }

  lemma UnregisterStepOk(t: Tree, root: Id, table: CtlTable, i: nat, ignore: bool, done: seq<CtlEntry>, s: EntryUnregistered)
    requires root in t && i < |table.entries| && |done| == i
    requires UnregisterEntry(t, root, table.entries[i], ignore) == Ok(s)
    ensures UnPatched(UnregisterFrom(t, root, table, i, ignore), done)
      == UnPatched(UnregisterFrom(s.tree, root, table, i + 1, ignore), done + [s.entry])
  {
    var rest := UnregisterFrom(s.tree, root, table, i + 1, ignore);
    if rest.Ok? {
      UnregisterStepRest(t, root, table, i, ignore, done, s, rest.value);
    } else {
      assert UnregisterFrom(t, root, table, i, ignore) == Barf;
    }
  }

  lemma UnregisterStepRest(t: Tree, root: Id, table: CtlTable, i: nat, ignore: bool, done: seq<CtlEntry>, s: EntryUnregistered, rest: Unregistered)
    requires root in t && i < |table.entries| && |done| == i
    requires UnregisterEntry(t, root, table.entries[i], ignore) == Ok(s)
    requires UnregisterFrom(s.tree, root, table, i + 1, ignore) == Ok(rest)
    ensures UnPatched(UnregisterFrom(t, root, table, i, ignore), done) == UnPatched(Ok(rest), done + [s.entry])
  {
    UnregisterUnfolds(t, root, table, i, ignore, s, rest);
    var es := rest.table.entries;
    assert done + es[i := s.entry][i..] == done + [s.entry] + es[i + 1..];
  }

  lemma UnregisterUnfolds(t: Tree, root: Id, table: CtlTable, i: nat, ignore: bool, s: EntryUnregistered, rest: Unregistered)
    requires root in t && i < |table.entries|
    requires UnregisterEntry(t, root, table.entries[i], ignore) == Ok(s)
    requires UnregisterFrom(s.tree, root, table, i + 1, ignore) == Ok(rest)
    ensures i < |rest.table.entries|
    ensures UnregisterFrom(t, root, table, i, ignore) == Ok(rest.(table := CtlTable(rest.table.entries[i := s.entry])))
  { }


  /** One pass of `unregister_proc_table`'s loop, as `UnregisterEntry`
    * states; the removal goes through `remove_proc_entry`. */
  method UnregisterTableEntry(proc: ProcRoot, e: CtlEntry, root: Id) returns (r: Result<CtlEntry>)
    requires proc.Valid() && root in proc.entries
    modifies proc
    ensures proc.Valid() && proc.next == old(proc.next) && proc.ignoreProcIssues == old(proc.ignoreProcIssues)
    ensures var f := UnregisterEntry(old(proc.entries), root, e, old(proc.ignoreProcIssues));
      && (r.Barf? <==> f.Barf?)
      && (r.Ok? ==> r.value == f.value.entry && proc.entries == f.value.tree)
    decreases e
  {
    if e.de.None? {
      return Ok(e);
    }
    var de := e.de.value;
    if de !in proc.entries {
      return Barf;
    }
    var e1 := e;
    if IsDir(proc.entries[de]) {
      if e.child.None? {
        return Ok(e);
      }
      var c := UnregisterProcTable(proc, e.child.value, de);
      if c.Barf? {
        return Barf;
      }
      e1 := e.(child := Some(c.value));
      if proc.entries[de].subdir != [] {
        return Ok(e1);
      }
    }
    if e1.procname.None? {
      return Barf;
    }
    var removed := proc.RemoveProcEntry(e1.procname.value, Some(root));
    if removed.Barf? {
      return Barf;
    }
    return Ok(e1.(de := None));
  }
}
