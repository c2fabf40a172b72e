/**
 * The folder-structure editor of the front end: a rooted, ordered tree of
 * folders that the user grows, prunes and renames, and that is serialised
 * without its ids to be sent to the backend or downloaded.
 *
 * Every editing operation rebuilds the tree and returns a new one, so the
 * model is a datatype with recursive functions; what the editor promises
 * is stated as lemmas over the pre-order listing of the nodes.
 */
module StructureBuilder {
  import opened Common

  /** A folder node: `{id, name, folders}`. */
  datatype Folder = Folder(id: string, name: string, folders: seq<Folder>)

  /** The serialised node: `{name, folders}`, ids dropped. */
  datatype CleanFolder = CleanFolder(name: string, folders: seq<CleanFolder>)

  /** The id the root always carries and `addSubfolder`/`renameFolder` test for. */
  const RootId: string := "root"
  /** The root's initial name, in the source's characters (`Raíz` mis-decoded). */
  const RootName: string := "Carpeta Ra\U{221A}\U{2260}z"
  /** The label every newly added folder gets. */
  const NewFolderName: string := "Nueva Carpeta"

  // ---------------------------------------------------------------------
  // Specification vocabulary: the nodes in pre-order and their ids
  // ---------------------------------------------------------------------

  /** All nodes of a forest, parent before children, siblings left to right. */
  function PreOrder(fs: seq<Folder>): seq<Folder>
  {
    if fs == [] then [] else [fs[0]] + PreOrder(fs[0].folders) + PreOrder(fs[1..])
  }

  /** Number of nodes of a forest. */
  function Size(fs: seq<Folder>): nat
  {
    |PreOrder(fs)|
  }

  function Ids(nodes: seq<Folder>): (r: seq<string>)
  {
    seq(|nodes|, i requires 0 <= i < |nodes| => nodes[i].id)
  }

  /** The ids of all nodes of a forest, in pre-order. */
  function IdsOf(fs: seq<Folder>): seq<string>
  {
    Ids(PreOrder(fs))
  }

  /** Every element of `s` occurs exactly once. */
  predicate Distinct(s: seq<string>)
  {
    forall x | x in s :: multiset(s)[x] == 1
  }

  /** The invariant the editor keeps: the root is the root, and ids are unique. */
  predicate WellFormed(s: Folder)
  {
    s.id == RootId && Distinct(IdsOf([s]))
  }

  lemma {:induction false} PreOrderAppend(a: seq<Folder>, b: seq<Folder>)
    ensures PreOrder(a + b) == PreOrder(a) + PreOrder(b)
    decreases |a|
  {
    if a != [] {
      assert (a + b)[0] == a[0];
      assert (a + b)[1..] == a[1..] + b;
      PreOrderAppend(a[1..], b);
      calc {
        PreOrder(a + b);
        [a[0]] + PreOrder(a[0].folders) + PreOrder(a[1..] + b);
        [a[0]] + PreOrder(a[0].folders) + (PreOrder(a[1..]) + PreOrder(b));
        ([a[0]] + PreOrder(a[0].folders) + PreOrder(a[1..])) + PreOrder(b);
      }
    } else {
      assert a + b == b;
    }
  }

  lemma IdsAppend(a: seq<Folder>, b: seq<Folder>)
    ensures Ids(a + b) == Ids(a) + Ids(b)
  {
  }

  /** The ids of a non-empty forest: the first node, its subtree, the rest. */
  lemma IdsOfCons(fs: seq<Folder>)
    requires fs != []
    ensures IdsOf(fs) == [fs[0].id] + IdsOf(fs[0].folders) + IdsOf(fs[1..])
  {
    IdsAppend([fs[0]] + PreOrder(fs[0].folders), PreOrder(fs[1..]));
    IdsAppend([fs[0]], PreOrder(fs[0].folders));
  }

  lemma IdsOfAppend(a: seq<Folder>, b: seq<Folder>)
    ensures IdsOf(a + b) == IdsOf(a) + IdsOf(b)
  {
    PreOrderAppend(a, b);
    IdsAppend(PreOrder(a), PreOrder(b));
  }

  // ---------------------------------------------------------------------
  // findFolderById
  // ---------------------------------------------------------------------

  /** Position of the first node of `s` whose id is `id`, or `|s|` if none. */
  function FirstIndex(s: seq<Folder>, id: string): (k: nat)
    ensures k <= |s|
    ensures forall j :: 0 <= j < k ==> s[j].id != id
    ensures k < |s| ==> s[k].id == id
  {
    if s == [] then 0
    else if s[0].id == id then 0
    else 1 + FirstIndex(s[1..], id)
  }

  /** The first node in pre-order whose id is `id`. */
  function Lookup(fs: seq<Folder>, id: string): Option<Folder>
  {
    var p := PreOrder(fs);
    var k := FirstIndex(p, id);
    if k < |p| then Some(p[k]) else None
  }

  lemma LookupNoneIffAbsent(fs: seq<Folder>, id: string)
    ensures Lookup(fs, id).None? <==> id !in IdsOf(fs)
  {
    var p := PreOrder(fs);
    if id in IdsOf(fs) {
      var j :| 0 <= j < |p| && Ids(p)[j] == id;
      assert p[j].id == id;
      assert FirstIndex(p, id) <= j;
    } else {
      forall j | 0 <= j < |p| ensures p[j].id != id {
        assert Ids(p)[j] == p[j].id;
      }
    }
  }

  lemma LookupAppend(a: seq<Folder>, b: seq<Folder>, id: string)
    ensures Lookup(a + b, id) == if Lookup(a, id).Some? then Lookup(a, id) else Lookup(b, id)
  {
    PreOrderAppend(a, b);
    var pa: seq<Folder>, pb: seq<Folder> := PreOrder(a), PreOrder(b);
    var p := PreOrder(a + b);
    FirstIndexAppend(pa, pb, id);
    var k, ka, kb := FirstIndex(p, id), FirstIndex(pa, id), FirstIndex(pb, id);
    if ka < |pa| {
      assert k == ka && p[k] == pa[ka];
    } else if kb < |pb| {
      assert k == |pa| + kb && p[k] == pb[kb];
    } else {
      assert k == |p|;
    }
  }

  /** The first match in a concatenation is in the left part if it has one. */
  lemma FirstIndexAppend(pa: seq<Folder>, pb: seq<Folder>, id: string)
    ensures FirstIndex(pa + pb, id) ==
      if FirstIndex(pa, id) < |pa| then FirstIndex(pa, id) else |pa| + FirstIndex(pb, id)
  {
    var p := pa + pb;
    var ka := FirstIndex(pa, id);
    if ka < |pa| {
      assert p[ka] == pa[ka];
    } else {
      var kb := FirstIndex(pb, id);
      forall j | 0 <= j < |pa| ensures p[j].id != id {
        assert p[j] == pa[j];
      }
      if kb < |pb| {
        assert p[|pa| + kb] == pb[kb];
      }
    }
  }

  /** A non-empty forest is searched at its first node, then its subtree, then the rest. */
  lemma LookupCons(fs: seq<Folder>, id: string)
    requires fs != []
    ensures Lookup(fs, id) ==
      if fs[0].id == id then Some(fs[0])
      else if Lookup(fs[0].folders, id).Some? then Lookup(fs[0].folders, id)
      else Lookup(fs[1..], id)
  {
    assert fs == [fs[0]] + fs[1..];
    LookupAppend([fs[0]], fs[1..], id);
    assert PreOrder([fs[0]]) == [fs[0]] + PreOrder(fs[0].folders);
    var p := PreOrder(fs[0].folders);
    assert Lookup([fs[0]], id) == if fs[0].id == id then Some(fs[0]) else Lookup(fs[0].folders, id) by {
      if fs[0].id != id {
        var k := FirstIndex(p, id);
        assert k < |p| ==> ([fs[0]] + p)[k + 1].id == id;
        assert FirstIndex([fs[0]] + p, id) == k + 1;
      }
    }
  }

  /**
   * `findFolderById`: a left-to-right scan of the siblings that returns a
   * node as soon as its id matches, and otherwise searches the node's own
   * children before moving on. It finds the first match in pre-order.
   */
  method FindFolderById(folders: seq<Folder>, id: string) returns (r: Option<Folder>)
    ensures r == Lookup(folders, id)
    ensures r.None? <==> id !in IdsOf(folders)
    ensures r.Some? ==> r.value.id == id
    decreases folders
  {
    LookupNoneIffAbsent(folders, id);
    for i := 0 to |folders|
      invariant Lookup(folders[..i], id).None?
    {
      var folder := folders[i];
      assert folders[..i + 1] == folders[..i] + [folder];
      LookupAppend(folders[..i], [folder], id);
      LookupCons([folder], id);
      assert [folder][1..] == [];
      if folder.id == id {
        LookupAppend(folders[..i + 1], folders[i + 1..], id);
        assert folders == folders[..i + 1] + folders[i + 1..];
        return Some(folder);
      }
      var found := FindFolderById(folder.folders, id);
      if found.Some? {
        LookupAppend(folders[..i + 1], folders[i + 1..], id);
        assert folders == folders[..i + 1] + folders[i + 1..];
        return found;
      }
    }
    assert folders[..|folders|] == folders;
    return None;
  }

  // ---------------------------------------------------------------------
  // addSubfolder
  // ---------------------------------------------------------------------

  /** The node `addSubfolder` creates; its id is supplied by the caller. */
  function NewFolder(newId: string): Folder
  {
    Folder(newId, NewFolderName, [])
  }

  /**
   * `updateFolders`: a node whose id is `parentId` gets `child` appended to
   * its children (its subtree is not searched further); any other node has
   * its children updated recursively.
   */
  function AddToChildren(fs: seq<Folder>, parentId: string, child: Folder): (r: seq<Folder>)
    ensures |r| == |fs|
    ensures forall k :: 0 <= k < |fs| ==> r[k].id == fs[k].id && r[k].name == fs[k].name
  {
    if fs == [] then []
    else
      var f := fs[0];
      var f' := if f.id == parentId then f.(folders := f.folders + [child])
                else f.(folders := AddToChildren(f.folders, parentId, child));
      [f'] + AddToChildren(fs[1..], parentId, child)
  }

  /** `addSubfolder(parentId)`, with the `Date.now()` id passed in as `newId`. */
  function AddSubfolder(s: Folder, parentId: string, newId: string): (r: Folder)
    ensures r.id == s.id && r.name == s.name
  {
    if parentId == RootId then s.(folders := s.folders + [NewFolder(newId)])
    else s.(folders := AddToChildren(s.folders, parentId, NewFolder(newId)))
  }

  /**
   * Adding at the root appends exactly one node, the placeholder, after
   * every existing node; the root keeps its id and name.
   */
  lemma AddAtRootAppendsLast(s: Folder, newId: string)
    ensures var r := AddSubfolder(s, RootId, newId);
      && r.id == s.id && r.name == s.name
      && r.folders[..|s.folders|] == s.folders
      && PreOrder(r.folders) == PreOrder(s.folders) + [Folder(newId, NewFolderName, [])]
  {
    PreOrderAppend(s.folders, [NewFolder(newId)]);
  }

  lemma {:induction false} AddToAbsentParentIsNoOp(fs: seq<Folder>, parentId: string, child: Folder)
    requires parentId !in IdsOf(fs)
    ensures AddToChildren(fs, parentId, child) == fs
    decreases fs
  {
    if fs != [] {
      IdsOfCons(fs);
      AddToAbsentParentIsNoOp(fs[0].folders, parentId, child);
      AddToAbsentParentIsNoOp(fs[1..], parentId, child);
    }
  }

  /** Adding under an id that names no folder leaves the tree as it was. */
  lemma AddUnderAbsentParentIsNoOp(s: Folder, parentId: string, newId: string)
    requires parentId != RootId && parentId !in IdsOf(s.folders)
    ensures AddSubfolder(s, parentId, newId) == s
  {
    AddToAbsentParentIsNoOp(s.folders, parentId, NewFolder(newId));
  }

  lemma MultisetIdsCons(fs: seq<Folder>)
    requires fs != []
    ensures multiset(IdsOf(fs))
      == multiset{fs[0].id} + multiset(IdsOf(fs[0].folders)) + multiset(IdsOf(fs[1..]))
  {
    IdsOfCons(fs);
  }

  /**
   * When `parentId` names exactly one node, the ids of the result are those
   * of the input plus the child's id alone.
   */
  lemma {:induction false} AddToChildrenIds(fs: seq<Folder>, parentId: string, child: Folder)
    requires child.folders == []
    requires multiset(IdsOf(fs))[parentId] == 1
    ensures multiset(IdsOf(AddToChildren(fs, parentId, child))) == multiset(IdsOf(fs)) + multiset{child.id}
    decreases fs
  {
    var f := fs[0];
    var rest := fs[1..];
    var r := AddToChildren(fs, parentId, child);
    assert r[1..] == AddToChildren(rest, parentId, child);
    MultisetIdsCons(fs);
    MultisetIdsCons(r);
    var m, mc, mr := multiset(IdsOf(fs)), multiset(IdsOf(f.folders)), multiset(IdsOf(rest));
    var mc', mr' := multiset(IdsOf(r[0].folders)), multiset(IdsOf(r[1..]));
    if f.id == parentId {
      assert mr[parentId] == 0;
      AddToAbsentParentIsNoOp(rest, parentId, child);
      assert mr' == mr;
      AddedChildIds(f.folders, child);
      assert mc' == mc + multiset{child.id};
    } else if mc[parentId] > 0 {
      assert mr[parentId] == 0;
      AddToAbsentParentIsNoOp(rest, parentId, child);
      assert mr' == mr;
      AddToChildrenIds(f.folders, parentId, child);
      assert mc' == mc + multiset{child.id};
    } else {
      AddToAbsentParentIsNoOp(f.folders, parentId, child);
      assert mc' == mc;
      AddToChildrenIds(rest, parentId, child);
      assert mr' == mr + multiset{child.id};
    }
  }

  lemma AddedChildIds(fs: seq<Folder>, child: Folder)
    requires child.folders == []
    ensures multiset(IdsOf(fs + [child])) == multiset(IdsOf(fs)) + multiset{child.id}
  {
    IdsOfAppend(fs, [child]);
    IdsOfCons([child]);
    assert [child][1..] == [];
  }

  /**
   * When `parentId` names exactly one node, that node is found in the
   * result with `child` appended at the end of its children.
   */
  lemma {:induction false} AddToChildrenLookup(fs: seq<Folder>, parentId: string, child: Folder)
    requires multiset(IdsOf(fs))[parentId] == 1
    ensures Lookup(fs, parentId).Some?
    ensures var p := Lookup(fs, parentId).value;
      Lookup(AddToChildren(fs, parentId, child), parentId) == Some(p.(folders := p.folders + [child]))
    decreases fs
  {
    LookupNoneIffAbsent(fs, parentId);
    var f := fs[0];
    var rest := fs[1..];
    var r := AddToChildren(fs, parentId, child);
    assert r[1..] == AddToChildren(rest, parentId, child);
    IdsOfCons(fs);
    LookupCons(fs, parentId);
    LookupCons(r, parentId);
    if f.id != parentId {
      if parentId in IdsOf(f.folders) {
        AddToChildrenLookup(f.folders, parentId, child);
      } else {
        AddToAbsentParentIsNoOp(f.folders, parentId, child);
        LookupNoneIffAbsent(f.folders, parentId);
        AddToChildrenLookup(rest, parentId, child);
      }
    }
  }

  /**
   * In a well-formed tree, adding under an existing non-root folder appends
   * the placeholder at the end of that folder's children, and the tree grows
   * by exactly one node.
   */
  lemma AddSubfolderAppendsChild(s: Folder, parentId: string, newId: string)
    requires WellFormed(s) && parentId != RootId && parentId in IdsOf(s.folders)
    ensures Lookup(s.folders, parentId).Some?
    ensures var p := Lookup(s.folders, parentId).value;
      var r := AddSubfolder(s, parentId, newId);
      && Lookup(r.folders, parentId) == Some(p.(folders := p.folders + [NewFolder(newId)]))
      && Size(r.folders) == Size(s.folders) + 1
  {
    IdsOfCons([s]);
    assert [s][1..] == [];
    assert parentId in IdsOf([s]);
    AddToChildrenIds(s.folders, parentId, NewFolder(newId));
    AddToChildrenLookup(s.folders, parentId, NewFolder(newId));
    var r := AddToChildren(s.folders, parentId, NewFolder(newId));
    assert |multiset(IdsOf(r))| == |multiset(IdsOf(s.folders))| + 1;
  }

  // ---------------------------------------------------------------------
  // deleteFolder
  // ---------------------------------------------------------------------

  /**
   * `deleteFolderFromTree`: drop the siblings whose id is `id`, then rebuild
   * each survivor with its children pruned the same way.
   */
  function DeleteFromTree(fs: seq<Folder>, id: string): (r: seq<Folder>)
    ensures |r| <= |fs|
    ensures forall k :: 0 <= k < |r| ==> r[k].id != id
  {
    if fs == [] then []
    else if fs[0].id == id then DeleteFromTree(fs[1..], id)
    else [fs[0].(folders := DeleteFromTree(fs[0].folders, id))] + DeleteFromTree(fs[1..], id)
  }

  /** `deleteFolder(id)`: prunes below the root; the root itself is never removed. */
  function DeleteFolder(s: Folder, id: string): (r: Folder)
    ensures r.id == s.id && r.name == s.name
    ensures |r.folders| <= |s.folders|
  {
    s.(folders := DeleteFromTree(s.folders, id))
  }

  lemma {:induction false} DeleteFromTreeAppend(a: seq<Folder>, b: seq<Folder>, id: string)
    ensures DeleteFromTree(a + b, id) == DeleteFromTree(a, id) + DeleteFromTree(b, id)
    decreases |a|
  {
    if a != [] {
      assert (a + b)[0] == a[0];
      assert (a + b)[1..] == a[1..] + b;
      DeleteFromTreeAppend(a[1..], b, id);
      if a[0].id != id {
        var h := [a[0].(folders := DeleteFromTree(a[0].folders, id))];
        assert DeleteFromTree(a + b, id) == h + DeleteFromTree(a[1..] + b, id);
        assert h + (DeleteFromTree(a[1..], id) + DeleteFromTree(b, id))
            == (h + DeleteFromTree(a[1..], id)) + DeleteFromTree(b, id);
      }
    } else {
      assert a + b == b;
    }
  }

  /** No node with the deleted id survives anywhere in the tree. */
  lemma {:induction false} DeleteRemovesEveryMatch(fs: seq<Folder>, id: string)
    ensures id !in IdsOf(DeleteFromTree(fs, id))
    decreases fs
  {
    if fs != [] {
      DeleteRemovesEveryMatch(fs[0].folders, id);
      DeleteRemovesEveryMatch(fs[1..], id);
      var r := DeleteFromTree(fs, id);
      if fs[0].id != id {
        IdsOfCons(r);
        assert r[1..] == DeleteFromTree(fs[1..], id);
      }
    }
  }

  lemma {:induction false} DeleteAbsentIsNoOp(fs: seq<Folder>, id: string)
    requires id !in IdsOf(fs)
    ensures DeleteFromTree(fs, id) == fs
    decreases fs
  {
    if fs != [] {
      IdsOfCons(fs);
      DeleteAbsentIsNoOp(fs[0].folders, id);
      DeleteAbsentIsNoOp(fs[1..], id);
    }
  }

  /**
   * The nodes of a forest in pre-order, each as its id, its name and its
   * depth (`depth` for the forest's own siblings). Read in order, the
   * depths fix under which node each one hangs.
   */
  function Labels(fs: seq<Folder>, depth: nat): seq<(string, string, nat)>
  {
    if fs == [] then []
    else [(fs[0].id, fs[0].name, depth)] + Labels(fs[0].folders, depth + 1) + Labels(fs[1..], depth)
  }

  /**
   * The survivors of a deletion keep their ids, their names, their depths
   * and their relative pre-order order. So a survivor whose parent survives
   * stays under it: every node between the two in the result lies between
   * them in the input, below the parent.
   */
  lemma {:induction false} DeleteKeepsOrder(fs: seq<Folder>, id: string, depth: nat)
    ensures IsSubsequence(Labels(DeleteFromTree(fs, id), depth), Labels(fs, depth))
    decreases fs
  {
    if fs != [] {
      DeleteKeepsOrder(fs[0].folders, id, depth + 1);
      DeleteKeepsOrder(fs[1..], id, depth);
      if fs[0].id == id {
        DeleteKeepsOrderDropped(fs, id, depth);
      } else {
        DeleteKeepsOrderKept(fs, id, depth);
      }
    }
  }

  /** The step of `DeleteKeepsOrder` where the first sibling is dropped. */
  lemma DeleteKeepsOrderDropped(fs: seq<Folder>, id: string, depth: nat)
    requires fs != [] && fs[0].id == id
    requires IsSubsequence(Labels(DeleteFromTree(fs[1..], id), depth), Labels(fs[1..], depth))
    ensures IsSubsequence(Labels(DeleteFromTree(fs, id), depth), Labels(fs, depth))
  {
    var f := fs[0];
    SubsequenceAppendRight(Labels(DeleteFromTree(fs[1..], id), depth), Labels(fs[1..], depth),
                           [(f.id, f.name, depth)] + Labels(f.folders, depth + 1));
  }

  /** The labels of a list are its head's label, its head's subtree, then the rest. */
  lemma LabelsOfCons(x: Folder, rest: seq<Folder>, depth: nat)
    ensures Labels([x] + rest, depth)
      == [(x.id, x.name, depth)] + (Labels(x.folders, depth + 1) + Labels(rest, depth))
  {
    assert ([x] + rest)[0] == x && ([x] + rest)[1..] == rest;
  }

  /** The step of `DeleteKeepsOrder` where the first sibling survives. */
  lemma DeleteKeepsOrderKept(fs: seq<Folder>, id: string, depth: nat)
    requires fs != [] && fs[0].id != id
    requires IsSubsequence(Labels(DeleteFromTree(fs[0].folders, id), depth + 1), Labels(fs[0].folders, depth + 1))
    requires IsSubsequence(Labels(DeleteFromTree(fs[1..], id), depth), Labels(fs[1..], depth))
    ensures IsSubsequence(Labels(DeleteFromTree(fs, id), depth), Labels(fs, depth))
  {
    var f := fs[0];
    var kids := DeleteFromTree(f.folders, id);
    var rest := DeleteFromTree(fs[1..], id);
    assert fs == [f] + fs[1..];
    LabelsOfCons(f.(folders := kids), rest, depth);
    LabelsOfCons(f, fs[1..], depth);
    SubsequenceAppend(Labels(kids, depth + 1), Labels(f.folders, depth + 1),
                      Labels(rest, depth), Labels(fs[1..], depth));
    SubsequenceCons((f.id, f.name, depth), Labels(kids, depth + 1) + Labels(rest, depth),
                    Labels(f.folders, depth + 1) + Labels(fs[1..], depth));
  }

  /**
   * In a tree with unique ids, deleting an existing id removes that node and
   * exactly the nodes of its subtree.
   */
  lemma {:induction false} DeleteRemovesSubtree(fs: seq<Folder>, id: string)
    requires Distinct(IdsOf(fs)) && id in IdsOf(fs)
    ensures Lookup(fs, id).Some?
    ensures multiset(IdsOf(DeleteFromTree(fs, id)))
      == multiset(IdsOf(fs)) - multiset(IdsOf([Lookup(fs, id).value]))
    ensures Size(DeleteFromTree(fs, id)) + Size([Lookup(fs, id).value]) == Size(fs)
    decreases fs
  {
    DeleteRemovesSubtreeIds(fs, id);
    LookupNoneIffAbsent(fs, id);
    DistinctCons(fs);
    IdsOfCons(fs);
    LookupCons(fs, id);
    var f := fs[0];
    var rest := fs[1..];
    PreOrderAppend([f], rest);
    assert fs == [f] + rest;
    if f.id == id {
      DeleteAbsentIsNoOp(rest, id);
    } else {
      var r := DeleteFromTree(fs, id);
      assert r[1..] == DeleteFromTree(rest, id);
      if id in IdsOf(f.folders) {
        DeleteAbsentIsNoOp(rest, id);
        DeleteRemovesSubtree(f.folders, id);
      } else {
        DeleteAbsentIsNoOp(f.folders, id);
        LookupNoneIffAbsent(f.folders, id);
        DeleteRemovesSubtree(rest, id);
      }
    }
  }

  /** The ids of the subtree found for an id all occur in the forest. */
  lemma {:induction false} LookupSubtreeIds(fs: seq<Folder>, id: string)
    requires id in IdsOf(fs)
    ensures Lookup(fs, id).Some?
    ensures multiset(IdsOf([Lookup(fs, id).value])) <= multiset(IdsOf(fs))
    decreases fs
  {
    LookupNoneIffAbsent(fs, id);
    LookupCons(fs, id);
    IdsOfCons(fs);
    MultisetIdsCons(fs);
    var f := fs[0];
    MultisetIdsCons([f]);
    assert [f][1..] == [];
    if f.id != id {
      if id in IdsOf(f.folders) {
        LookupSubtreeIds(f.folders, id);
      } else {
        LookupNoneIffAbsent(f.folders, id);
        LookupSubtreeIds(fs[1..], id);
      }
    }
  }

  /**
   * With unique ids, the ids left after deleting an existing id are those
   * of the forest minus exactly those of the matched node's subtree.
   */
  lemma {:induction false} DeleteRemovesSubtreeIds(fs: seq<Folder>, id: string)
    requires Distinct(IdsOf(fs)) && id in IdsOf(fs)
    ensures Lookup(fs, id).Some?
    ensures multiset(IdsOf(DeleteFromTree(fs, id)))
      == multiset(IdsOf(fs)) - multiset(IdsOf([Lookup(fs, id).value]))
    decreases fs
  {
    LookupNoneIffAbsent(fs, id);
    DistinctCons(fs);
    IdsOfCons(fs);
    var f := fs[0];
    if f.id == id {
      DeleteSubtreeIdsAtFirst(fs, id);
    } else if id in IdsOf(f.folders) {
      DeleteRemovesSubtreeIds(f.folders, id);
      DeleteSubtreeIdsInChildren(fs, id);
    } else {
      LookupNoneIffAbsent(f.folders, id);
      DeleteRemovesSubtreeIds(fs[1..], id);
      DeleteSubtreeIdsInRest(fs, id);
    }
  }

  /** The step of `DeleteRemovesSubtreeIds` where the first sibling is the match. */
  lemma DeleteSubtreeIdsAtFirst(fs: seq<Folder>, id: string)
    requires fs != [] && fs[0].id == id && id !in IdsOf(fs[1..])
    ensures Lookup(fs, id) == Some(fs[0])
    ensures multiset(IdsOf(DeleteFromTree(fs, id))) == multiset(IdsOf(fs)) - multiset(IdsOf([fs[0]]))
  {
    LookupCons(fs, id);
    MultisetIdsCons(fs);
    var f := fs[0];
    DeleteAbsentIsNoOp(fs[1..], id);
    MultisetIdsCons([f]);
    assert [f][1..] == [];
    MultisetRemoveFront(multiset{f.id} + multiset(IdsOf(f.folders)), multiset(IdsOf(fs[1..])));
  }

  /** The step of `DeleteRemovesSubtreeIds` where the match is below the first sibling. */
  lemma DeleteSubtreeIdsInChildren(fs: seq<Folder>, id: string)
    requires fs != [] && fs[0].id != id && id in IdsOf(fs[0].folders) && id !in IdsOf(fs[1..])
    requires Lookup(fs[0].folders, id).Some?
    requires multiset(IdsOf(DeleteFromTree(fs[0].folders, id)))
      == multiset(IdsOf(fs[0].folders)) - multiset(IdsOf([Lookup(fs[0].folders, id).value]))
    ensures Lookup(fs, id) == Lookup(fs[0].folders, id)
    ensures multiset(IdsOf(DeleteFromTree(fs, id)))
      == multiset(IdsOf(fs)) - multiset(IdsOf([Lookup(fs, id).value]))
  {
    LookupCons(fs, id);
    MultisetIdsCons(fs);
    var f := fs[0];
    var r := DeleteFromTree(fs, id);
    assert r[1..] == DeleteFromTree(fs[1..], id);
    MultisetIdsCons(r);
    DeleteAbsentIsNoOp(fs[1..], id);
    LookupSubtreeIds(f.folders, id);
    MultisetRemoveMiddle(multiset{f.id}, multiset(IdsOf(f.folders)), multiset(IdsOf(fs[1..])),
                         multiset(IdsOf([Lookup(f.folders, id).value])));
  }

  /** The step of `DeleteRemovesSubtreeIds` where the match is in a later sibling. */
  lemma DeleteSubtreeIdsInRest(fs: seq<Folder>, id: string)
    requires fs != [] && fs[0].id != id && id !in IdsOf(fs[0].folders) && id in IdsOf(fs[1..])
    requires Lookup(fs[0].folders, id).None? && Lookup(fs[1..], id).Some?
    requires multiset(IdsOf(DeleteFromTree(fs[1..], id)))
      == multiset(IdsOf(fs[1..])) - multiset(IdsOf([Lookup(fs[1..], id).value]))
    ensures Lookup(fs, id) == Lookup(fs[1..], id)
    ensures multiset(IdsOf(DeleteFromTree(fs, id)))
      == multiset(IdsOf(fs)) - multiset(IdsOf([Lookup(fs, id).value]))
  {
    LookupCons(fs, id);
    MultisetIdsCons(fs);
    var f := fs[0];
    var r := DeleteFromTree(fs, id);
    assert r[1..] == DeleteFromTree(fs[1..], id);
    MultisetIdsCons(r);
    DeleteAbsentIsNoOp(f.folders, id);
    LookupSubtreeIds(fs[1..], id);
    MultisetRemoveMiddle(multiset{f.id} + multiset(IdsOf(f.folders)), multiset(IdsOf(fs[1..])), multiset{},
                         multiset(IdsOf([Lookup(fs[1..], id).value])));
  }

  lemma MultisetRemoveFront(a: multiset<string>, b: multiset<string>)
    ensures (a + b) - a == b
  {
  }

  lemma MultisetRemoveMiddle(a: multiset<string>, b: multiset<string>, c: multiset<string>, m: multiset<string>)
    requires m <= b
    ensures a + (b - m) + c == (a + b + c) - m
  {
  }

  /** Deletion never introduces an id: the ids left are a sub-multiset. */
  lemma {:induction false} DeleteShrinksIds(fs: seq<Folder>, id: string)
    ensures multiset(IdsOf(DeleteFromTree(fs, id))) <= multiset(IdsOf(fs))
    decreases fs
  {
    if fs != [] {
      MultisetIdsCons(fs);
      DeleteShrinksIds(fs[0].folders, id);
      DeleteShrinksIds(fs[1..], id);
      var r := DeleteFromTree(fs, id);
      if fs[0].id != id {
        MultisetIdsCons(r);
        assert r[1..] == DeleteFromTree(fs[1..], id);
      }
    }
  }

  /**
   * `deleteFolder` on the whole tree: the root survives with its id and
   * name, no node with the id is left, the survivors keep their labels and
   * order, and an absent id changes nothing.
   */
  lemma DeleteFolderSpec(s: Folder, id: string)
    ensures var r := DeleteFolder(s, id);
      && r.id == s.id && r.name == s.name
      && id !in IdsOf(r.folders)
      && IsSubsequence(Labels(r.folders, 1), Labels(s.folders, 1))
      && (id !in IdsOf(s.folders) ==> r == s)
  {
    DeleteRemovesEveryMatch(s.folders, id);
    DeleteKeepsOrder(s.folders, id, 1);
    if id !in IdsOf(s.folders) {
      DeleteAbsentIsNoOp(s.folders, id);
    }
  }

  /**
   * Adding a folder with an id not yet in the tree and then deleting that id
   * gives back the very same tree, hence the same serialised tree.
   */
  lemma AddThenDeleteRestores(s: Folder, parentId: string, newId: string)
    requires newId !in IdsOf(s.folders)
    ensures DeleteFolder(AddSubfolder(s, parentId, newId), newId) == s
  {
    var nf := NewFolder(newId);
    if parentId == RootId {
      DeleteFromTreeAppend(s.folders, [nf], newId);
      DeleteAbsentIsNoOp(s.folders, newId);
      assert DeleteFromTree([nf], newId) == [];
    } else {
      AddThenDeleteChildren(s.folders, parentId, newId);
    }
  }

  lemma {:induction false} AddThenDeleteChildren(fs: seq<Folder>, parentId: string, newId: string)
    requires newId !in IdsOf(fs)
    ensures DeleteFromTree(AddToChildren(fs, parentId, NewFolder(newId)), newId) == fs
    decreases fs
  {
    if fs != [] {
      var f := fs[0];
      var nf := NewFolder(newId);
      var a := AddToChildren(fs, parentId, nf);
      assert a[1..] == AddToChildren(fs[1..], parentId, nf);
      IdsOfCons(fs);
      AddThenDeleteChildren(fs[1..], parentId, newId);
      if f.id == parentId {
        DeleteFromTreeAppend(f.folders, [nf], newId);
        DeleteAbsentIsNoOp(f.folders, newId);
        assert DeleteFromTree([nf], newId) == [];
        assert DeleteFromTree(a[0].folders, newId) == f.folders + [];
      } else {
        AddThenDeleteChildren(f.folders, parentId, newId);
      }
      assert DeleteFromTree(a[0].folders, newId) == f.folders;
      assert DeleteFromTree(a, newId)
          == [a[0].(folders := DeleteFromTree(a[0].folders, newId))] + DeleteFromTree(a[1..], newId);
      assert fs == [f] + fs[1..];
    }
  }

  // ---------------------------------------------------------------------
  // renameFolder
  // ---------------------------------------------------------------------

  /**
   * `renameFolderInTree`: a node whose id matches gets the new name (its
   * subtree is not searched further); any other node is rebuilt with its
   * children renamed recursively.
   */
  function RenameInTree(fs: seq<Folder>, id: string, newName: string): (r: seq<Folder>)
    ensures |r| == |fs|
    ensures forall k :: 0 <= k < |fs| ==> r[k].id == fs[k].id
  {
    if fs == [] then []
    else
      var f := fs[0];
      var f' := if f.id == id then f.(name := newName)
                else f.(folders := RenameInTree(f.folders, id, newName));
      [f'] + RenameInTree(fs[1..], id, newName)
  }

  /** `renameFolder(id, newName)`: the root when `id` is the root id, else the matching node. */
  function RenameFolder(s: Folder, id: string, newName: string): (r: Folder)
    ensures r.id == s.id && |r.folders| == |s.folders|
    ensures r.name == if id == RootId then newName else s.name
  {
    if id == RootId then s.(name := newName)
    else s.(folders := RenameInTree(s.folders, id, newName))
  }

  /**
   * `p'` lists the same nodes as `p` with the same ids and the same number
   * of children each, and differs only in the names of nodes whose id is
   * `id`, which are `newName`.
   */
  predicate RenamedFrom(p': seq<Folder>, p: seq<Folder>, id: string, newName: string)
  {
    && |p'| == |p|
    && (forall k :: 0 <= k < |p| ==> p'[k].id == p[k].id && |p'[k].folders| == |p[k].folders|)
    && (forall k :: 0 <= k < |p| ==> p'[k].name == if p[k].id == id then newName else p[k].name)
  }

  lemma DistinctCons(fs: seq<Folder>)
    requires fs != [] && Distinct(IdsOf(fs))
    ensures Distinct(IdsOf(fs[0].folders)) && Distinct(IdsOf(fs[1..]))
    ensures fs[0].id !in IdsOf(fs[0].folders) && fs[0].id !in IdsOf(fs[1..])
  {
    MultisetIdsCons(fs);
    var m, mc, mr := multiset(IdsOf(fs)), multiset(IdsOf(fs[0].folders)), multiset(IdsOf(fs[1..]));
    assert m[fs[0].id] == 1 + mc[fs[0].id] + mr[fs[0].id];
    forall x | x in IdsOf(fs[0].folders) ensures mc[x] == 1 {
      assert m[x] >= mc[x];
    }
    forall x | x in IdsOf(fs[1..]) ensures mr[x] == 1 {
      assert m[x] >= mr[x];
    }
  }

  lemma NothingRenamedWhenAbsent(p: seq<Folder>, id: string, newName: string)
    requires id !in Ids(p)
    ensures RenamedFrom(p, p, id, newName)
  {
    forall k | 0 <= k < |p| ensures p[k].id != id {
      assert Ids(p)[k] == p[k].id;
    }
  }

  lemma {:induction false} RenameInTreeSpec(fs: seq<Folder>, id: string, newName: string)
    requires Distinct(IdsOf(fs))
    ensures RenamedFrom(PreOrder(RenameInTree(fs, id, newName)), PreOrder(fs), id, newName)
    decreases fs
  {
    if fs != [] {
      DistinctCons(fs);
      var f := fs[0];
      var r := RenameInTree(fs, id, newName);
      assert r[1..] == RenameInTree(fs[1..], id, newName);
      RenameInTreeSpec(fs[1..], id, newName);
      if f.id == id {
        NothingRenamedWhenAbsent(PreOrder(f.folders), id, newName);
      } else {
        RenameInTreeSpec(f.folders, id, newName);
      }
      assert RenamedFrom([r[0]], [f], id, newName);
      RenamedAppend([r[0]], [f], PreOrder(r[0].folders), PreOrder(f.folders), id, newName);
      RenamedAppend([r[0]] + PreOrder(r[0].folders), [f] + PreOrder(f.folders),
                    PreOrder(r[1..]), PreOrder(fs[1..]), id, newName);
    }
  }

  lemma RenamedAppend(a': seq<Folder>, a: seq<Folder>, b': seq<Folder>, b: seq<Folder>, id: string, newName: string)
    requires RenamedFrom(a', a, id, newName) && RenamedFrom(b', b, id, newName)
    ensures RenamedFrom(a' + b', a + b, id, newName)
  {
    assert forall k :: |a| <= k < |a| + |b| ==> (a' + b')[k] == b'[k - |a|] && (a + b)[k] == b[k - |a|];
  }

  /**
   * In a well-formed tree a rename changes exactly the name of the node
   * with that id (the root when the id is the root id): every node keeps
   * its id, its number of children and its place, and every other name
   * stays the same.
   */
  lemma RenameFolderChangesOnlyName(s: Folder, id: string, newName: string)
    requires WellFormed(s)
    ensures RenamedFrom(PreOrder([RenameFolder(s, id, newName)]), PreOrder([s]), id, newName)
  {
    var r := RenameFolder(s, id, newName);
    DistinctCons([s]);
    assert [s][1..] == [] && [r][1..] == [];
    if id == RootId {
      NothingRenamedWhenAbsent(PreOrder(s.folders), id, newName);
    } else {
      RenameInTreeSpec(s.folders, id, newName);
    }
    assert RenamedFrom([r], [s], id, newName);
    RenamedAppend([r], [s], PreOrder(r.folders), PreOrder(s.folders), id, newName);
  }

  // ---------------------------------------------------------------------
  // The unique-ids invariant
  // ---------------------------------------------------------------------

  /** A sub-multiset of a duplicate-free sequence is duplicate-free. */
  lemma DistinctSubMultiset(a: seq<string>, b: seq<string>)
    requires Distinct(b) && multiset(a) <= multiset(b)
    ensures Distinct(a)
  {
    forall x | x in a ensures multiset(a)[x] == 1 {
      assert x in multiset(b);
    }
  }

  /** Adding a folder with a fresh id keeps the tree well formed. */
  lemma AddSubfolderKeepsWellFormed(s: Folder, parentId: string, newId: string)
    requires WellFormed(s) && newId !in IdsOf([s])
    ensures WellFormed(AddSubfolder(s, parentId, newId))
  {
    var r := AddSubfolder(s, parentId, newId);
    var nf := NewFolder(newId);
    MultisetIdsCons([s]);
    MultisetIdsCons([r]);
    assert [s][1..] == [] && [r][1..] == [];
    assert multiset(IdsOf([r])) <= multiset(IdsOf([s])) + multiset{newId} by {
      if parentId == RootId {
        AddedChildIds(s.folders, nf);
      } else if parentId in IdsOf(s.folders) {
        IdsOfCons([s]);
        assert parentId in IdsOf([s]);
        AddToChildrenIds(s.folders, parentId, nf);
      } else {
        AddToAbsentParentIsNoOp(s.folders, parentId, nf);
      }
    }
    DistinctAddFresh(IdsOf([s]), newId);
    DistinctSubMultiset(IdsOf([r]), IdsOf([s]) + [newId]);
  }

  lemma DistinctAddFresh(ids: seq<string>, x: string)
    requires Distinct(ids) && x !in ids
    ensures Distinct(ids + [x]) && multiset(ids + [x]) == multiset(ids) + multiset{x}
  {
  }

  /** Deleting keeps the tree well formed. */
  lemma DeleteFolderKeepsWellFormed(s: Folder, id: string)
    requires WellFormed(s)
    ensures WellFormed(DeleteFolder(s, id))
  {
    var r := DeleteFolder(s, id);
    MultisetIdsCons([s]);
    MultisetIdsCons([r]);
    assert [s][1..] == [] && [r][1..] == [];
    DeleteShrinksIds(s.folders, id);
    DistinctSubMultiset(IdsOf([r]), IdsOf([s]));
  }

  /** Renaming keeps every id, so it keeps the tree well formed. */
  lemma RenameFolderKeepsWellFormed(s: Folder, id: string, newName: string)
    requires WellFormed(s)
    ensures WellFormed(RenameFolder(s, id, newName))
  {
    var r := RenameFolder(s, id, newName);
    RenameFolderChangesOnlyName(s, id, newName);
    assert IdsOf([r]) == IdsOf([s]);
  }

  /** `resetStructure` (and the initial state): the root alone, under its fixed id. */
  function ResetStructure(): (r: Folder)
    ensures WellFormed(r) && Size([r]) == 1
  {
    Folder(RootId, RootName, [])
  }

  // ---------------------------------------------------------------------
  // cleanStructure: serialisation without ids
  // ---------------------------------------------------------------------

  /** `cleanStructure`: keep the name, clean every child, drop the id. */
  function Clean(f: Folder): (c: CleanFolder)
    ensures c.name == f.name && |c.folders| == |f.folders|
    decreases f, 1
  {
    CleanFolder(f.name, CleanAll(f.folders))
  }

  /** `folders.map(cleanStructure)`. */
  function CleanAll(fs: seq<Folder>): (cs: seq<CleanFolder>)
    ensures |cs| == |fs|
    ensures forall k :: 0 <= k < |fs| ==> cs[k] == Clean(fs[k])
    decreases fs, 0
  {
    if fs == [] then [] else [Clean(fs[0])] + CleanAll(fs[1..])
  }

  /** All nodes of a serialised forest, in pre-order. */
  function CleanPreOrder(cs: seq<CleanFolder>): seq<CleanFolder>
  {
    if cs == [] then [] else [cs[0]] + CleanPreOrder(cs[0].folders) + CleanPreOrder(cs[1..])
  }

  lemma {:induction false} CleanPreOrderAppend(a: seq<CleanFolder>, b: seq<CleanFolder>)
    ensures CleanPreOrder(a + b) == CleanPreOrder(a) + CleanPreOrder(b)
    decreases |a|
  {
    if a != [] {
      assert (a + b)[0] == a[0];
      assert (a + b)[1..] == a[1..] + b;
      CleanPreOrderAppend(a[1..], b);
      calc {
        CleanPreOrder(a + b);
        [a[0]] + CleanPreOrder(a[0].folders) + CleanPreOrder(a[1..] + b);
        ([a[0]] + CleanPreOrder(a[0].folders) + CleanPreOrder(a[1..])) + CleanPreOrder(b);
      }
    } else {
      assert a + b == b;
    }
  }

  lemma CleanAllAppend(a: seq<Folder>, b: seq<Folder>)
    ensures CleanAll(a + b) == CleanAll(a) + CleanAll(b)
  {
  }

  /**
   * Serialising commutes with listing the nodes: the serialised forest's
   * nodes are, in the same order, the serialisations of the original nodes.
   */
  lemma {:induction false} CleanCommutesWithPreOrder(fs: seq<Folder>)
    ensures CleanPreOrder(CleanAll(fs)) == CleanAll(PreOrder(fs))
    decreases fs
  {
    if fs != [] {
      var cs := CleanAll(fs);
      assert cs[1..] == CleanAll(fs[1..]);
      CleanCommutesWithPreOrder(fs[0].folders);
      CleanCommutesWithPreOrder(fs[1..]);
      CleanAllAppend([fs[0]] + PreOrder(fs[0].folders), PreOrder(fs[1..]));
      CleanAllAppend([fs[0]], PreOrder(fs[0].folders));
    }
  }

  /**
   * The serialised tree has the same number of nodes as the tree, and in
   * pre-order the same names with the same number of children each (the
   * same shape, order and names); ids are absent by construction.
   */
  lemma CleanKeepsShape(s: Folder)
    ensures var p, cp := PreOrder([s]), CleanPreOrder([Clean(s)]);
      && |cp| == |p| == Size([s])
      && forall k :: 0 <= k < |p| ==> cp[k].name == p[k].name && |cp[k].folders| == |p[k].folders|
  {
    CleanCommutesWithPreOrder([s]);
    assert CleanAll([s]) == [Clean(s)];
  }

  // ---------------------------------------------------------------------
  // handleRename in FolderNode
  // ---------------------------------------------------------------------

  /**
   * `handleRename`: the edited name is passed on, untrimmed, only when it
   * is not blank and differs from the folder's current name.
   */
  function HandleRename(folderId: string, currentName: string, edited: string): (call: Option<(string, string)>)
    ensures call.Some? <==> !IsBlank(edited) && edited != currentName
    ensures call.Some? ==> call.value == (folderId, edited)
  {
    TrimEmptyIffBlank(edited);
    if Trim(edited) != "" && edited != currentName then Some((folderId, edited)) else None
  }

  /** The rename the editor performs when the user finishes editing a name. */
  function ApplyRenameEdit(s: Folder, folderId: string, currentName: string, edited: string): (r: Folder)
    ensures IsBlank(edited) || edited == currentName ==> r == s
    ensures !IsBlank(edited) && edited != currentName ==> r == RenameFolder(s, folderId, edited)
  {
    match HandleRename(folderId, currentName, edited)
    case None => s
    case Some((id, name)) => RenameFolder(s, id, name)
  }
}
