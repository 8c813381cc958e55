/**
 * The simulated `/proc` tree: directory entries whose children form a list
 * headed by `subdir`, looked up one path component at a time, created at the
 * head of their parent's list and unlinked from it.
 *
 * Entries live in a map from identities to values, so that sharing is kept:
 * a child list is the sequence of identities that the `next` pointers visit.
 */
module ProcFs {
  import opened Wrappers
  import opened CLib

  type Id = nat

  /** `proc_root` */
  const ROOT: Id := 0

  const S_IFDIR: bv32 := 0x4000
  const S_IFREG: bv32 := 0x8000
  const S_IRUGO: bv32 := 0x124
  const S_IXUGO: bv32 := 0x49
  /** The mode `proc_mkdir` gives a directory. */
  const DIR_MODE: bv32 := S_IFDIR | S_IRUGO | S_IXUGO

  /** `struct proc_dir_entry`, with the fields the tree operations use;
    * `data` is the sysctl table entry a sysctl file serves. */
  datatype Entry = Entry(name: string, namelen: nat, mode: bv32, data: Option<nat>, subdir: seq<Id>, parent: Id)

  type Tree = map<Id, Entry>

  /** Every child list names entries of the tree, each younger than its
    * parent, so that walking down never comes back to a directory. */
  ghost predicate Closed(tree: Tree)
  {
    forall d, k :: d in tree && 0 <= k < |tree[d].subdir| ==> tree[d].subdir[k] in tree && tree[d].subdir[k] > d
  }

  /** `proc_match(len, name, de)`: the lengths agree and `memcmp` of `len`
    * bytes finds no difference (a shorter stored name differs at its NUL). */
  predicate ProcMatch(len: nat, name: string, de: Entry)
    requires len <= |name|
  {
    de.namelen == len && len <= |de.name| && name[..len] == de.name[..len]
  }

  /** For an entry whose `namelen` is its name's length, matching is equality
    * of the component with the stored name. */
  lemma MatchIsNameEquality(len: nat, name: string, de: Entry)
    requires len <= |name| && de.namelen == |de.name|
    ensures ProcMatch(len, name, de) <==> name[..len] == de.name
  {
  }

  predicate Matches(tree: Tree, id: Id, len: nat, name: string)
    requires len <= |name|
  {
    id in tree && ProcMatch(len, name, tree[id])
  }

  /** The position of the first child at or after `i` that matches. */
  function MatchIndex(tree: Tree, kids: seq<Id>, len: nat, name: string, i: nat): (r: Option<nat>)
    requires len <= |name| && i <= |kids|
    ensures r.Some? ==> i <= r.value < |kids| && Matches(tree, kids[r.value], len, name)
    ensures r.Some? ==> forall k :: i <= k < r.value ==> !Matches(tree, kids[k], len, name)
    ensures r.None? ==> forall k :: i <= k < |kids| ==> !Matches(tree, kids[k], len, name)
    decreases |kids| - i
  {
    if i == |kids| then None
    else if Matches(tree, kids[i], len, name) then Some(i)
    else MatchIndex(tree, kids, len, name, i + 1)
  }

  /** The first child of `dir` that the component `name[..len]` matches. */
  function Lookup(tree: Tree, dir: Id, len: nat, name: string): (r: Option<Id>)
    requires len <= |name|
    ensures r.Some? ==> dir in tree && r.value in tree[dir].subdir && Matches(tree, r.value, len, name)
    ensures r.None? && dir in tree ==> forall k :: 0 <= k < |tree[dir].subdir| ==> !Matches(tree, tree[dir].subdir[k], len, name)
  {
    if dir !in tree then None
    else match MatchIndex(tree, tree[dir].subdir, len, name, 0)
      case None => None
      case Some(k) => Some(tree[dir].subdir[k])
  }

  /** `xlate_proc_name` from `dir` on the rest `s` of the name: every
    * component ended by `/` must name a child; the result is the last
    * directory reached and the final component. */
  function Xlate(tree: Tree, dir: Id, s: string): (r: Option<(Id, string)>)
    ensures r.Some? ==> (forall k :: 0 <= k < |r.value.1| ==> r.value.1[k] != '/')
    ensures r.Some? ==> |r.value.1| <= |s| && r.value.1 == s[|s| - |r.value.1|..]
    ensures r.Some? && r.value.0 != dir ==> r.value.0 in tree
    ensures r.Some? && Closed(tree) ==> r.value.0 >= dir
    decreases |s|
  {
    match StrChr(s, '/', 0)
    case None => Some((dir, s))
    case Some(j) =>
      match Lookup(tree, dir, j, s)
      case None => None
      case Some(c) => Xlate(tree, c, s[j + 1..])
  }

  /** One component of the walk. */
  lemma XlateStep(tree: Tree, d: Id, s: string, j: nat, c: Id)
    requires StrChr(s, '/', 0) == Some(j) && Lookup(tree, d, j, s) == Some(c)
    ensures Xlate(tree, d, s) == Xlate(tree, c, s[j + 1..])
  {
  }

  /** `find_proc_entry`'s walk from `ent` on the rest `s` of the name: every
    * component, the last one included, must name a child. */
  function Resolve(tree: Tree, ent: Id, s: string): (r: Option<Id>)
    ensures r.Some? ==> r.value in tree
    decreases |s|
  {
    var next := StrChr(s, '/', 0);
    var len := if next.Some? then next.value else |s|;
    match Lookup(tree, ent, len, s)
    case None => None
    case Some(c) => if next.None? then Some(c) else Resolve(tree, c, s[next.value + 1..])
  }

  /** `find_proc_entry`: the `/proc/` in front is skipped unread. */
  function FindEntry(tree: Tree, name: string): Option<Id>
    requires |name| >= 6
  {
    Resolve(tree, ROOT, name[6..])
  }

  /** The final component looked up in the directory a translation ended in. */
  function FinalLookup(tree: Tree, x: Option<(Id, string)>): Option<Id>
  {
    if x.None? then None else Lookup(tree, x.value.0, |x.value.1|, x.value.1)
  }

  /** The two walks agree: resolving a path finds what translating it to a
    * directory and a final component, then looking that component up there,
    * finds. */
  lemma {:induction false} ResolveIsXlateThenLookup(tree: Tree, ent: Id, s: string)
    ensures Resolve(tree, ent, s) == FinalLookup(tree, Xlate(tree, ent, s))
    decreases |s|
  {
    var next := StrChr(s, '/', 0);
    if next.None? {
      assert Xlate(tree, ent, s) == Some((ent, s));
    } else {
      var l := Lookup(tree, ent, next.value, s);
      if l.Some? {
        ResolveIsXlateThenLookup(tree, l.value, s[next.value + 1..]);
      }
    }
  }

  // ------------------------------------------------------------------
  // Creating and removing entries
  // ------------------------------------------------------------------

  /** A new entry and the directory `proc_create` leaves in `*parent`. */
  datatype Created = Created(dir: Id, entry: Entry)

  /** Where a new entry goes and what its final component is: the given
    * parent and the whole name, or the translation of the name. */
  function Placement(tree: Tree, parent: Option<Id>, name: string): (r: Option<(Id, string)>)
    ensures parent.Some? ==> r == Some((parent.value, name))
    ensures parent.None? ==> r == Xlate(tree, ROOT, name)
  {
    if parent.Some? then Some((parent.value, name)) else Xlate(tree, ROOT, name)
  }

  /** `proc_create` as written: the stored name is the whole argument, but
    * `namelen` is the length of its final component. */
  function ProcCreateAsWritten(tree: Tree, parent: Option<Id>, name: Option<string>, mode: bv32, fail: bool): (r: Option<Created>)
    ensures r.Some? ==> name.Some? && r.value.entry.name == name.value
  {
    if name.None? || |name.value| == 0 then None
    else match Placement(tree, parent, name.value)
      case None => None
      case Some((dir, fn)) =>
        if fail then None
        else Some(Created(dir, Entry(name.value, |fn|, mode, None, [], dir)))
  }

  /** `proc_create` as intended: the stored name is the final component.
    * Nothing is created for a NULL or empty name, an untranslatable path or
    * an injected failure (`fail` is the answer of `should_i_fail`). */
  function ProcCreate(tree: Tree, parent: Option<Id>, name: Option<string>, mode: bv32, fail: bool): (r: Option<Created>)
    ensures r.Some? <==> name.Some? && |name.value| > 0 && Placement(tree, parent, name.value).Some? && !fail
    ensures r.Some? ==>
      var (dir, fn) := Placement(tree, parent, name.value).value;
      && r.value.dir == dir && r.value.entry.name == fn
      && r.value.entry.namelen == |r.value.entry.name| && r.value.entry.mode == mode
      && r.value.entry.subdir == [] && r.value.entry.data == None
  {
    if name.None? || |name.value| == 0 then None
    else match Placement(tree, parent, name.value)
      case None => None
      case Some((dir, fn)) =>
        if fail then None
        else Some(Created(dir, Entry(fn, |fn|, mode, None, [], dir)))
  }

  /** A new entry goes into a directory of the tree and has no children. */
  lemma CreatedInTree(tree: Tree, parent: Option<Id>, name: Option<string>, mode: bv32, fail: bool)
    requires ROOT in tree && (parent.Some? ==> parent.value in tree)
    requires ProcCreate(tree, parent, name, mode, fail).Some?
    ensures var c := ProcCreate(tree, parent, name, mode, fail).value;
      c.dir in tree && c.entry.subdir == []
  {
  }

  /** Creating an entry as `next` keeps the tree closed, with every
    * identity below `next + 1`. */
  lemma CreateKeepsValid(tree: Tree, next: Id, parent: Option<Id>, name: Option<string>, mode: bv32, fail: bool)
    requires ROOT in tree && Closed(tree) && (forall d :: d in tree ==> d < next) && (parent.Some? ==> parent.value in tree)
    ensures var c := ProcCreate(tree, parent, name, mode, fail);
      c.Some? ==> (
        && c.value.dir in tree && next !in tree
        && var t := Register(tree, c.value.dir, next, c.value.entry);
           ROOT in t && Closed(t) && forall d :: d in t ==> d < next + 1)
  {
    var c := ProcCreate(tree, parent, name, mode, fail);
    if c.Some? {
      CreatedInTree(tree, parent, name, mode, fail);
      RegisterKeepsValid(tree, next, c.value.dir, c.value.entry);
    }
  }

  /** `proc_register`: `id` goes to the head of `dir`'s children. */
  function Register(tree: Tree, dir: Id, id: Id, ent: Entry): (t: Tree)
    requires dir in tree && id !in tree
    ensures t.Keys == tree.Keys + {id}
    ensures t[id] == ent.(parent := dir)
    ensures t[dir].subdir == [id] + tree[dir].subdir
    ensures t[dir] == tree[dir].(subdir := [id] + tree[dir].subdir)
    ensures forall d :: d in tree && d != dir ==> t[d] == tree[d]
  {
    tree[dir := tree[dir].(subdir := [id] + tree[dir].subdir)][id := ent.(parent := dir)]
  }

  /** Registering a childless entry younger than its directory keeps the
    * tree closed. */
  lemma RegisterKeepsClosed(tree: Tree, dir: Id, id: Id, ent: Entry)
    requires dir in tree && id !in tree && id > dir && ent.subdir == [] && Closed(tree)
    ensures Closed(Register(tree, dir, id, ent))
  {
  }

  /** Registering a childless entry as `next` keeps the tree closed, with
    * every identity below `next + 1`. */
  lemma RegisterKeepsValid(tree: Tree, next: Id, dir: Id, ent: Entry)
    requires ROOT in tree && Closed(tree) && (forall d :: d in tree ==> d < next)
    requires dir in tree && ent.subdir == []
    ensures var t := Register(tree, dir, next, ent);
      ROOT in t && Closed(t) && forall d :: d in t ==> d < next + 1
  {
    RegisterKeepsClosed(tree, dir, next, ent);
  }

  /** A registered entry shadows older siblings of the same name, and no
    * other lookup changes. */
  lemma LookupAfterRegister(tree: Tree, dir: Id, id: Id, ent: Entry, d: Id, len: nat, name: string)
    requires dir in tree && id !in tree && id > dir && ent.subdir == [] && Closed(tree) && len <= |name|
    ensures Lookup(Register(tree, dir, id, ent), d, len, name) ==
      if d == dir && ProcMatch(len, name, ent) then Some(id) else Lookup(tree, d, len, name)
  {
    var t := Register(tree, dir, id, ent);
    if d in tree {
      var kids := tree[d].subdir;
      forall k | 0 <= k < |kids|
        ensures Matches(t, kids[k], len, name) == Matches(tree, kids[k], len, name)
      {
        assert kids[k] in tree;
      }
      if d == dir {
        var tk := t[d].subdir;
        if !ProcMatch(len, name, ent) {
          assert !Matches(t, tk[0], len, name);
          MatchIndexSkip(t, tk, len, name, 1, kids, tree);
        }
      } else {
        MatchIndexSkip(t, kids, len, name, 0, kids, tree);
      }
    }
  }

  /** Two child lists that agree on matching from `off` on have the same
    * first match there, shifted by `off`. */
  lemma {:induction false} MatchIndexSkip(t: Tree, tk: seq<Id>, len: nat, name: string, off: nat, kids: seq<Id>, tree: Tree)
    requires len <= |name| && off <= |tk| && tk[off..] == kids
    requires forall k :: 0 <= k < |kids| ==> Matches(t, kids[k], len, name) == Matches(tree, kids[k], len, name)
    ensures MatchIndex(t, tk, len, name, off) ==
      match MatchIndex(tree, kids, len, name, 0)
      case None => None
      case Some(k) => Some(k + off)
  {
    var a := MatchIndex(t, tk, len, name, off);
    var b := MatchIndex(tree, kids, len, name, 0);
    if a.Some? {
      assert tk[a.value] == kids[a.value - off];
      forall k | 0 <= k < a.value - off ensures !Matches(tree, kids[k], len, name) {
        assert tk[k + off] == kids[k];
      }
    }
    if b.Some? {
      assert tk[b.value + off] == kids[b.value];
      forall k | off <= k < b.value + off ensures !Matches(t, tk[k], len, name) {
        assert tk[k] == kids[k - off];
      }
    }
  }

  /** The first child of `dir` matching `name[..len]` unlinked; None when no
    * child matches. The other children keep their order. */
  function Unlink(tree: Tree, dir: Id, len: nat, name: string): (r: Option<Tree>)
    requires dir in tree && len <= |name|
    ensures r.None? <==> Lookup(tree, dir, len, name).None?
    ensures r.Some? ==> exists k :: (
      && 0 <= k < |tree[dir].subdir|
      && tree[dir].subdir[k] == Lookup(tree, dir, len, name).value
      && (forall j :: 0 <= j < k ==> !Matches(tree, tree[dir].subdir[j], len, name))
      && r.value == tree[dir := tree[dir].(subdir := tree[dir].subdir[..k] + tree[dir].subdir[k + 1..])])
  {
    var kids := tree[dir].subdir;
    match MatchIndex(tree, kids, len, name, 0)
    case None => None
    case Some(k) => Some(tree[dir := tree[dir].(subdir := kids[..k] + kids[k + 1..])])
  }

  /** The outcome of `remove_proc_entry`: whether an entry was unlinked. */
  datatype Removal = Removed | NotFoundIgnored

  // ------------------------------------------------------------------
  // The tree as the simulator holds it
  // ------------------------------------------------------------------

  class ProcRoot {
    var entries: Tree
    /** the identity the next entry gets */
    var next: Id
    /** `--ignore-proc-issues` */
    var ignoreProcIssues: bool

    ghost predicate Valid()
      reads this
    {
      ROOT in entries && Closed(entries) && forall d :: d in entries ==> d < next
    }

    /** `proc_init`: `/proc` with `net`, `net/stat` and `sys`. */
    constructor (ignore: bool)
      ensures Valid() && ignoreProcIssues == ignore && next == 4
      ensures entries == InitialTree
    {
      entries := InitialTree;
      next := 4;
      ignoreProcIssues := ignore;
    }

    /** The sibling walk `for (de = dir->subdir; de; de = de->next)`. */
    method FindChild(dir: Id, len: nat, name: string) returns (r: Option<Id>)
      requires len <= |name|
      ensures r == Lookup(entries, dir, len, name)
    {
      if dir !in entries {
        return None;
      }
      var kids := entries[dir].subdir;
      var k := 0;
      while k < |kids|
        invariant 0 <= k <= |kids|
        invariant MatchIndex(entries, kids, len, name, 0) == MatchIndex(entries, kids, len, name, k)
      {
        if kids[k] in entries && ProcMatch(len, name, entries[kids[k]]) {
          return Some(kids[k]);
        }
        k := k + 1;
      }
      return None;
    }

    /** `xlate_proc_name`: None for -ENOENT; otherwise the directory and
      * the residual final component. */
    method XlateProcName(name: string) returns (r: Option<(Id, string)>)
      ensures r == Xlate(entries, ROOT, name)
    {
      // `rest` is the text at the C code's `cp`.
      var rest := name;
      var de := ROOT;
      while true
        invariant Xlate(entries, de, rest) == Xlate(entries, ROOT, name)
        decreases |rest|
      {
        var next := StrChr(rest, '/', 0);
        if next.None? {
          return Some((de, rest));
        }
        var len := next.value;
        var c := FindChild(de, len, rest);
        if c.None? {
          return None;
        }
        XlateStep(entries, de, rest, len, c.value);
        de := c.value;
        rest := rest[len + 1..];
      }
    }

    /** `find_proc_entry`: None for a missing component. */
    method FindProcEntry(name: string) returns (r: Option<Id>)
      requires |name| >= 6
      ensures r == FindEntry(entries, name)
      ensures r.Some? ==> r.value in entries
    {
      var rest := name[6..];
      var ent := ROOT;
      var last := false;
      while !last
        invariant !last ==> Resolve(entries, ent, rest) == FindEntry(entries, name)
        invariant last ==> FindEntry(entries, name) == Some(ent)
        decreases |rest|, !last
      {
        var next := StrChr(rest, '/', 0);
        var len: nat;
        if next.Some? {
          len := next.value;
        } else {
          len := |rest|;
          last := true;
        }
        var c := FindChild(ent, len, rest);
        if c.None? {
          return None;
        }
        ent := c.value;
        if !last {
          rest := rest[len + 1..];
        }
      }
      return Some(ent);
    }

    /** `create_proc_entry`, and `proc_mkdir` with DIR_MODE: `proc_create`,
      * then `proc_register` of the new entry under the directory it found. */
    method CreateProcEntry(name: Option<string>, mode: bv32, parent: Option<Id>, fail: bool) returns (r: Option<Id>)
      requires Valid() && (parent.Some? ==> parent.value in entries)
      modifies this
      ensures Valid()
      ensures var c := ProcCreate(old(entries), parent, name, mode, fail);
        && (r.None? <==> c.None?)
        && (r.None? ==> entries == old(entries) && next == old(next))
        && (r.Some? ==> (
              && r.value == old(next) && next == old(next) + 1
              && entries == Register(old(entries), c.value.dir, r.value, c.value.entry)))
      ensures ignoreProcIssues == old(ignoreProcIssues)
    {
      CreateKeepsValid(entries, next, parent, name, mode, fail);
      var c := ProcCreate(entries, parent, name, mode, fail);
      if c.Some? {
        entries := Register(entries, c.value.dir, next, c.value.entry);
        r := Some(next);
        next := next + 1;
      } else {
        r := None;
      }
    }

    /** `remove_proc_entry`: without a parent the name is translated first,
      * and an untranslatable name is fatal; the first child matching the
      * final component is unlinked; none is fatal unless
      * `--ignore-proc-issues`. */
    method RemoveProcEntry(name: string, parent: Option<Id>) returns (r: Result<Removal>)
      requires Valid() && (parent.Some? ==> parent.value in entries)
      modifies this
      ensures Valid() && next == old(next) && ignoreProcIssues == old(ignoreProcIssues)
      ensures var loc := Placement(old(entries), parent, name);
        && (loc.None? ==> r == Barf && entries == old(entries))
        && (loc.Some? ==>
              var (dir, fn) := loc.value;
              var u := Unlink(old(entries), dir, |fn|, fn);
              && (u.Some? ==> r == Ok(Removed) && entries == u.value)
              && (u.None? ==> entries == old(entries) && r == if ignoreProcIssues then Ok(NotFoundIgnored) else Barf))
    {
      var dir: Id;
      var fn: string;
      if parent.None? {
        var loc := XlateProcName(name);
        if loc.None? {
          return Barf;
        }
        dir, fn := loc.value.0, loc.value.1;
      } else {
        dir, fn := parent.value, name;
      }
      var found := UnlinkChild(dir, fn);
      if found {
        return Ok(Removed);
      }
      if !ignoreProcIssues {
        return Barf;
      }
      return Ok(NotFoundIgnored);
    }

    /** The sibling walk of `remove_proc_entry`, unlinking the first match. */
    method UnlinkChild(dir: Id, fn: string) returns (found: bool)
      requires Valid() && dir in entries
      modifies this`entries
      ensures Valid()
      ensures var u := Unlink(old(entries), dir, |fn|, fn);
        found == u.Some? && entries == if found then u.value else old(entries)
    {
      var len := |fn|;
      var kids := entries[dir].subdir;
      var k := 0;
      while k < |kids|
        invariant 0 <= k <= |kids|
        invariant MatchIndex(entries, kids, len, fn, 0) == MatchIndex(entries, kids, len, fn, k)
      {
        if kids[k] in entries && ProcMatch(len, fn, entries[kids[k]]) {
          UnlinkKeepsValid(entries, dir, len, fn, next);
          entries := entries[dir := entries[dir].(subdir := kids[..k] + kids[k + 1..])];
          return true;
        }
        k := k + 1;
      }
      return false;
    }
  }

  /** Unlinking a child keeps the tree closed, rooted and numbered below `next`. */
  lemma UnlinkKeepsValid(tree: Tree, dir: Id, len: nat, name: string, next: nat)
    requires dir in tree && len <= |name| && ROOT in tree && Closed(tree)
    requires forall d :: d in tree ==> d < next
    requires Unlink(tree, dir, len, name).Some?
    ensures var t := Unlink(tree, dir, len, name).value;
      ROOT in t && Closed(t) && forall d :: d in t ==> d < next
  {
    UnlinkKeepsClosed(tree, dir, len, name);
  }

  /** Unlinking a child keeps the entries and keeps every child link inside
    * the tree. */
  lemma UnlinkKeepsClosed(tree: Tree, dir: Id, len: nat, name: string)
    requires dir in tree && len <= |name|
    ensures var u := Unlink(tree, dir, len, name);
      u.Some? ==> u.value.Keys == tree.Keys && (Closed(tree) ==> Closed(u.value))
  {
    var kids := tree[dir].subdir;
    var m := MatchIndex(tree, kids, len, name, 0);
    if m.Some? {
      var k := m.value;
      var kids' := kids[..k] + kids[k + 1..];
      assert forall j :: 0 <= j < |kids'| ==> kids'[j] == if j < k then kids[j] else kids[j + 1];
    }
  }

  // ------------------------------------------------------------------
  // What the stored name does to later lookups
  // ------------------------------------------------------------------

  /** The tree `proc_init` builds: `sys` was registered after `net`, so it
    * heads the root's children. */
  const InitialTree: Tree := map[
    ROOT := Entry("/proc", 5, 0, None, [3, 1], ROOT),
    1 := Entry("net", 3, DIR_MODE, None, [2], ROOT),
    2 := Entry("stat", 4, DIR_MODE, None, [], 1),
    3 := Entry("sys", 3, DIR_MODE, None, [], ROOT)]

  /** `net/foo` translates to `net` (entry 1) and the component `foo`. */
  lemma NetFooPlacement()
    ensures Xlate(InitialTree, ROOT, "net/foo") == Some((1, "foo"))
  {
    var name := "net/foo";
    assert StrChr(name, '/', 0) == Some(3);
    assert name[..3] == "net";
    assert !Matches(InitialTree, 3, 3, name);
    assert Lookup(InitialTree, ROOT, 3, name) == Some(1);
    XlateStep(InitialTree, ROOT, name, 3, 1);
    assert name[4..] == "foo";
    assert StrChr("foo", '/', 0) == None;
  }

  /** After `e` is registered as entry 4 under `net`, the walk of `net/foo`
    * from the root goes through `net` (entry 1). */
  lemma NetStep(e: Entry)
    ensures Resolve(Register(InitialTree, 1, 4, e), ROOT, "net/foo")
         == Resolve(Register(InitialTree, 1, 4, e), 1, "foo")
  {
    var t := Register(InitialTree, 1, 4, e);
    var name := "net/foo";
    assert StrChr(name, '/', 0) == Some(3);
    assert name[..3] == "net";
    assert t[ROOT] == InitialTree[ROOT] && t[3] == InitialTree[3];
    assert !Matches(t, 3, 3, name);
    assert Lookup(t, ROOT, 3, name) == Some(1);
    assert name[4..] == "foo";
  }

  /** ... where `foo` is entry 4 exactly when `e` matches it. */
  lemma FooStep(e: Entry)
    ensures Resolve(Register(InitialTree, 1, 4, e), 1, "foo")
         == if ProcMatch(3, "foo", e) then Some(4) else None
  {
    var t := Register(InitialTree, 1, 4, e);
    assert StrChr("foo", '/', 0) == None;
    assert t[1].subdir == [4, 2] && t[2] == InitialTree[2];
    assert ProcMatch(3, "foo", t[4]) == ProcMatch(3, "foo", e);
    assert !Matches(t, 2, 3, "foo");
  }

  /** After `e` is registered as entry 4 under `net`, `/proc/net/foo` is
    * found exactly when `e` matches the component `foo`. */
  lemma NetFooWalk(e: Entry)
    ensures FindEntry(Register(InitialTree, 1, 4, e), "/proc/net/foo")
      == if ProcMatch(3, "foo", e) then Some(4) else None
  {
    assert "/proc/net/foo"[6..] == "net/foo";
    NetStep(e);
    FooStep(e);
  }

  /** `create_proc_entry("net/foo", 0444, NULL)` as written stores the name
    * `net/foo` with length 3, and `/proc/net/foo` is then not found. */
  lemma CreatedEntryNotFoundAsWritten()
    ensures ProcCreateAsWritten(InitialTree, None, Some("net/foo"), 0x124, false)
         == Some(Created(1, Entry("net/foo", 3, 0x124, None, [], 1)))
    ensures FindEntry(Register(InitialTree, 1, 4, Entry("net/foo", 3, 0x124, None, [], 1)), "/proc/net/foo") == None
  {
    NetFooPlacement();
    assert "foo"[..3] != "net/foo"[..3];
    NetFooWalk(Entry("net/foo", 3, 0x124, None, [], 1));
  }

  /** The intended `proc_create` stores `foo`, and `/proc/net/foo` finds it. */
  lemma CreatedEntryFound()
    ensures ProcCreate(InitialTree, None, Some("net/foo"), 0x124, false)
         == Some(Created(1, Entry("foo", 3, 0x124, None, [], 1)))
    ensures FindEntry(Register(InitialTree, 1, 4, Entry("foo", 3, 0x124, None, [], 1)), "/proc/net/foo") == Some(4)
  {
    NetFooPlacement();
    NetFooWalk(Entry("foo", 3, 0x124, None, [], 1));
  }

  /** With the intended `proc_create`, an entry created under the directory
    * its name translates to is what `find_proc_entry` finds at `/proc/`
    * followed by that name. */
  lemma CreatedEntryIsFound(tree: Tree, name: string, mode: bv32, id: Id)
    requires Closed(tree) && ROOT in tree && id !in tree && forall d :: d in tree ==> d < id
    requires ProcCreate(tree, None, Some(name), mode, false).Some?
    ensures var c := ProcCreate(tree, None, Some(name), mode, false).value;
      FindEntry(Register(tree, c.dir, id, c.entry), "/proc/" + name) == Some(id)
  {
    var c := ProcCreate(tree, None, Some(name), mode, false).value;
    var (dir, fn) := Xlate(tree, ROOT, name).value;
    assert dir in tree;
    assert id > dir;
    var t := Register(tree, dir, id, c.entry);
    var path := "/proc/" + name;
    assert path[6..] == name;
    XlateAfterRegister(tree, dir, id, c.entry, ROOT, name);
    ResolveIsXlateThenLookup(t, ROOT, name);
    LookupAfterRegister(tree, dir, id, c.entry, dir, |fn|, fn);
  }

  /** In a closed tree a child is younger than its directory. */
  lemma ChildIsYounger(tree: Tree, d: Id, c: Id)
    requires Closed(tree) && d in tree && c in tree[d].subdir
    ensures c in tree && c > d
  {
    var k :| 0 <= k < |tree[d].subdir| && tree[d].subdir[k] == c;
  }

  /** Registering a new entry under `dir` leaves every translation that
    * ends in `dir` as it was: the walk only looks up final components there. */
  lemma {:induction false} XlateAfterRegister(tree: Tree, dir: Id, id: Id, ent: Entry, d: Id, s: string)
    requires dir in tree && id !in tree && id > dir && ent.subdir == [] && Closed(tree)
    requires Xlate(tree, d, s).Some? && Xlate(tree, d, s).value.0 == dir
    ensures Xlate(Register(tree, dir, id, ent), d, s) == Xlate(tree, d, s)
    decreases |s|
  {
    var t := Register(tree, dir, id, ent);
    var next := StrChr(s, '/', 0);
    if next.Some? {
      var j := next.value;
      var c := Lookup(tree, d, j, s).value;
      XlateStep(tree, d, s, j, c);
      ChildIsYounger(tree, d, c);
      LookupAfterRegister(tree, dir, id, ent, d, j, s);
      XlateStep(t, d, s, j, c);
      XlateAfterRegister(tree, dir, id, ent, c, s[j + 1..]);
    }
  }
}
