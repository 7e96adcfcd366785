/**
 * Path and file-system helpers (src/libutil/file-system.cc): the last component of a path,
 * the permission checks made before a chmod, and the accounting of freed bytes during
 * a recursive delete, over an abstract directory tree instead of the real file system.
 */
module FileSystem {
  import opened Wrappers

  /** On POSIX the only path separator is '/'. */
  predicate IsPathSep(c: char)
  {
    c == '/'
  }

  /** rfindPathSep(path, last): the position of the last separator at or before `last`. */
  function RFindPathSep(path: string, last: nat): (r: Option<nat>)
    requires last < |path|
    ensures r.Some? ==> r.value <= last && IsPathSep(path[r.value])
    ensures r.Some? ==> forall k :: r.value < k <= last ==> !IsPathSep(path[k])
    ensures r.None? <==> forall k :: 0 <= k <= last ==> !IsPathSep(path[k])
    decreases last
  {
    if IsPathSep(path[last]) then Some(last)
    else if last == 0 then None
    else RFindPathSep(path, last - 1)
  }

  // ---------------------------------------------------------------------------------
  // baseNameOf

  /** The path without its trailing separators, keeping at least the first character. */
  function TrimTrailingSeps(p: string): (r: string)
    ensures |r| <= |p| && r == p[..|r|]
    ensures |r| <= 1 || !IsPathSep(r[|r| - 1])
    ensures p != [] ==> r != []
  {
    if |p| <= 1 || !IsPathSep(p[|p| - 1]) then p else TrimTrailingSeps(p[..|p| - 1])
  }

  /** Everything after the last separator. */
  function LastComponent(p: string): (r: string)
    ensures forall k :: 0 <= k < |r| ==> !IsPathSep(r[k])
  {
    if p == [] then []
    else if IsPathSep(p[|p| - 1]) then []
    else LastComponent(p[..|p| - 1]) + [p[|p| - 1]]
  }

  /** The base name a path denotes: its last component, trailing separators ignored. */
  function BaseName(p: string): string
  {
    LastComponent(TrimTrailingSeps(p))
  }

  /** The characters of a separator-free path are its last component. */
  lemma {:induction false} LastComponentNoSep(q: string)
    requires forall k :: 0 <= k < |q| ==> !IsPathSep(q[k])
    ensures LastComponent(q) == q
  {
    if q != [] {
      LastComponentNoSep(q[..|q| - 1]);
      assert q == q[..|q| - 1] + [q[|q| - 1]];
    }
  }

  /** After the last separator at position i, the last component is what follows it. */
  lemma {:induction false} LastComponentAfterSep(q: string, i: nat)
    requires i < |q| && IsPathSep(q[i])
    requires forall k :: i < k < |q| ==> !IsPathSep(q[k])
    ensures LastComponent(q) == q[i + 1..]
  {
    if i < |q| - 1 {
      var q' := q[..|q| - 1];
      LastComponentAfterSep(q', i);
      assert q[i + 1..] == q'[i + 1..] + [q[|q| - 1]];
    }
  }

  lemma TrimPrefix(path: string, last: nat)
    requires 0 < last < |path| && IsPathSep(path[last])
    ensures TrimTrailingSeps(path[..last + 1]) == TrimTrailingSeps(path[..last])
  {
    assert path[..last + 1][..last] == path[..last];
  }

  /** baseNameOf, as the source computes it: skip trailing separators, then search back. */
  method BaseNameOf(path: string) returns (r: string)
    ensures r == BaseName(path)
  {
    if |path| == 0 {
      return "";
    }
    var last := |path| - 1;
    assert path[..last + 1] == path;
    while last > 0 && IsPathSep(path[last])
      invariant 0 <= last < |path|
      invariant TrimTrailingSeps(path) == TrimTrailingSeps(path[..last + 1])
    {
      TrimPrefix(path, last);
      last := last - 1;
    }
    var q := path[..last + 1];
    assert TrimTrailingSeps(q) == q;
    var found := RFindPathSep(path, last);
    var pos: nat;
    if found.None? {
      pos := 0;
      LastComponentNoSep(q);
    } else {
      pos := found.value + 1;
      LastComponentAfterSep(q, found.value);
    }
    return path[pos..last + 1];
  }

  /** The base name never contains a separator. */
  lemma BaseNameNoSep(p: string)
    ensures forall k :: 0 <= k < |BaseName(p)| ==> !IsPathSep(BaseName(p)[k])
  {
  }

  /** A path of separators only has an empty base name. */
  lemma {:induction false} BaseNameOfSeparators(p: string)
    requires forall k :: 0 <= k < |p| ==> IsPathSep(p[k])
    ensures BaseName(p) == ""
  {
    if |p| > 1 {
      var q := p[..|p| - 1];
      assert forall k :: 0 <= k < |q| ==> IsPathSep(q[k]);
      BaseNameOfSeparators(q);
    }
  }

  lemma {:induction false} TrimAppendSeps(p: string, n: nat)
    requires p != [] && !IsPathSep(p[|p| - 1])
    ensures TrimTrailingSeps(p + seq(n, _ => '/')) == p
    decreases n
  {
    if n == 0 {
      assert p + seq(n, _ => '/') == p;
    } else {
      var s := p + seq(n, _ => '/');
      assert s[..|s| - 1] == p + seq(n - 1, _ => '/');
      TrimAppendSeps(p, n - 1);
    }
  }

  /** The name of an entry in a directory is the base name of the joined path, whatever the
      directory and however many separators follow. */
  lemma BaseNameOfJoin(dir: string, name: string, trailing: nat)
    requires name != []
    requires forall k :: 0 <= k < |name| ==> !IsPathSep(name[k])
    ensures BaseName(dir + "/" + name + seq(trailing, _ => '/')) == name
  {
    var p := dir + "/" + name;
    TrimAppendSeps(p, trailing);
    LastComponentAfterSep(p, |dir|);
    assert p[|dir| + 1..] == name;
  }

  /** A name with no separator in it, followed by separators or not, is its own base name. */
  lemma BaseNameOfBare(name: string, trailing: nat)
    requires name != []
    requires forall k :: 0 <= k < |name| ==> !IsPathSep(name[k])
    ensures BaseName(name + seq(trailing, _ => '/')) == name
  {
    TrimAppendSeps(name, trailing);
    LastComponentNoSep(name);
  }

  /** Taking the base name twice changes nothing. */
  lemma BaseNameIdempotent(p: string)
    ensures BaseName(BaseName(p)) == BaseName(p)
  {
    var b := BaseName(p);
    if b != [] {
      assert TrimTrailingSeps(b) == b;
    }
    LastComponentNoSep(b);
  }

  // ---------------------------------------------------------------------------------
  // Permissions (mode_t is 32 bits wide)

  datatype FsError = ChmodFailed(path: string, mode: bv32)

  /** Two modes agree on every bit under the mask. */
  predicate SameUnder(a: bv32, b: bv32, mask: bv32)
  {
    a & mask == b & mask
  }

  /** The test chmodIfNeeded makes, no masked bit in the exclusive or, is agreement under the mask. */
  lemma XorTestMeaning(prevMode: bv32, mode: bv32, mask: bv32)
    ensures (prevMode ^ mode) & mask == 0 <==> SameUnder(prevMode, mode, mask)
  {
    assert (prevMode ^ mode) & mask == (prevMode & mask) ^ (mode & mask);
  }

  /** The bits chmod(2) sets: permissions, set-user-ID, set-group-ID and sticky (07777).
      The file-type bits (S_IFMT) above them stay as they were. */
  const ChmodBits: bv32 := 0xFFF

  /** chmodIfNeeded's mask when the caller gives none: 0777. */
  const DefaultChmodMask: bv32 := 0x1FF

  /** A mask that looks at no bit chmod(2) cannot set. */
  predicate WithinChmodBits(mask: bv32)
  {
    mask & !ChmodBits == 0
  }

  /** S_ISLNK: the file-type bits (S_IFMT, 0170000) say symbolic link (S_IFLNK, 0120000). */
  predicate IsSymlink(m: bv32)
  {
    m & 0xF000 == 0xA000
  }

  /** The mode lstat reports after chmod(2) with `mode`. chmod follows a symbolic link and
      changes its target, so a link's own mode stays as it was; any other file gets the
      settable bits of `mode` and keeps its file-type bits. */
  function AfterChmod(prevMode: bv32, mode: bv32): (r: bv32)
    ensures !IsSymlink(prevMode) ==> SameUnder(r, mode, ChmodBits)
    ensures IsSymlink(prevMode) ==> r == prevMode
    ensures SameUnder(r, prevMode, !ChmodBits)
  {
    if IsSymlink(prevMode) then prevMode else (prevMode & !ChmodBits) | (mode & ChmodBits)
  }

  /** chmodIfNeeded: change the mode only if a masked bit differs; returns whether it did,
      with the file's mode afterwards. `chmodOk` is whether chmod(2) succeeds. */
  function ChmodIfNeeded(path: string, prevMode: bv32, mode: bv32, mask: bv32, chmodOk: bool)
    : (r: Result<(bool, bv32), FsError>)
    ensures r.Failure? <==> !SameUnder(prevMode, mode, mask) && !chmodOk
    ensures r.Failure? ==> r.error == ChmodFailed(path, mode)
    ensures r.Success? ==> (r.value.0 <==> !SameUnder(prevMode, mode, mask))
    ensures r.Success? ==> r.value.1 == if r.value.0 then AfterChmod(prevMode, mode) else prevMode
    ensures r.Success? && WithinChmodBits(mask) && !IsSymlink(prevMode) ==> SameUnder(r.value.1, mode, mask)
  {
    XorTestMeaning(prevMode, mode, mask);
    if (prevMode ^ mode) & mask == 0 then Success((false, prevMode))
    else if !chmodOk then Failure(ChmodFailed(path, mode))
    else Success((true, AfterChmod(prevMode, mode)))
  }

  /** With a mask within the bits chmod(2) sets, on a file that is not a symbolic link, a
      second call after a successful one, with the same arguments, does nothing. */
  lemma ChmodIfNeededIdempotent(path: string, prevMode: bv32, mode: bv32, mask: bv32, ok1: bool, ok2: bool)
    requires WithinChmodBits(mask) && !IsSymlink(prevMode)
    requires ChmodIfNeeded(path, prevMode, mode, mask, ok1).Success?
    ensures var after := ChmodIfNeeded(path, prevMode, mode, mask, ok1).value.1;
      ChmodIfNeeded(path, after, mode, mask, ok2) == Success((false, after))
  {
  }

  /** With a mask that reaches the bits chmod(2) cannot set, where the file and `mode`
      differ, every call chmods again and the mode never changes after the first. */
  lemma ChmodIfNeededRepeats(path: string, prevMode: bv32, mode: bv32, mask: bv32, ok1: bool)
    requires !SameUnder(prevMode, mode, mask & !ChmodBits)
    requires ChmodIfNeeded(path, prevMode, mode, mask, ok1).Success?
    ensures var after := ChmodIfNeeded(path, prevMode, mode, mask, ok1).value.1;
      ChmodIfNeeded(path, after, mode, mask, true) == Success((true, after))
  {
    var after := AfterChmod(prevMode, mode);
    XorTestMeaning(prevMode, mode, mask & !ChmodBits);
    WiderMaskDiffers(prevMode ^ mode, mask);
    ChmodIfNeededChanges(path, prevMode, mode, mask, ok1);
    TypeBitsStillDiffer(prevMode, after, mode, mask);
    ChmodIfNeededChanges(path, after, mode, mask, true);
    ChmodAgain(prevMode, mode);
  }

  /** On a symbolic link whose mode differs under the mask, a successful call reports true
      and leaves the mode lstat sees as it was, so the same call chmods again every time. */
  lemma ChmodIfNeededSymlinkRepeats(path: string, prevMode: bv32, mode: bv32, mask: bv32)
    requires IsSymlink(prevMode) && !SameUnder(prevMode, mode, mask)
    ensures ChmodIfNeeded(path, prevMode, mode, mask, true) == Success((true, prevMode))
  {
  }

  lemma ChmodIfNeededChanges(path: string, prevMode: bv32, mode: bv32, mask: bv32, chmodOk: bool)
    requires (prevMode ^ mode) & mask != 0
    ensures ChmodIfNeeded(path, prevMode, mode, mask, chmodOk)
         == if chmodOk then Success((true, AfterChmod(prevMode, mode))) else Failure(ChmodFailed(path, mode))
  {
  }

  lemma WiderMaskDiffers(x: bv32, mask: bv32)
    requires x & (mask & !ChmodBits) != 0
    ensures x & mask != 0
  {
  }

  lemma TypeBitsStillDiffer(prevMode: bv32, after: bv32, mode: bv32, mask: bv32)
    requires SameUnder(after, prevMode, !ChmodBits)
    requires (prevMode ^ mode) & (mask & !ChmodBits) != 0
    ensures (after ^ mode) & mask != 0
  {
    assert (after ^ mode) & (mask & !ChmodBits) == (prevMode ^ mode) & (mask & !ChmodBits);
  }

  lemma ChmodAgain(prevMode: bv32, mode: bv32)
    ensures AfterChmod(AfterChmod(prevMode, mode), mode) == AfterChmod(prevMode, mode)
  {
    if !IsSymlink(prevMode) {
      var a := (prevMode & !ChmodBits) | (mode & ChmodBits);
      ChmodKeepsType(prevMode, mode);
      SetBitsAgain(prevMode, mode);
      assert AfterChmod(a, mode) == (a & !ChmodBits) | (mode & ChmodBits);
    }
  }

  lemma ChmodKeepsType(prevMode: bv32, mode: bv32)
    ensures ((prevMode & !ChmodBits) | (mode & ChmodBits)) & 0xF000 == prevMode & 0xF000
  {
  }

  lemma SetBitsAgain(prevMode: bv32, mode: bv32)
    ensures var a := (prevMode & !ChmodBits) | (mode & ChmodBits);
      (a & !ChmodBits) | (mode & ChmodBits) == a
  {
  }

  /** S_IRUSR | S_IWUSR | S_IXUSR: 0400 | 0200 | 0100, that is 0700. */
  const PermMask: bv32 := 0x1C0

  /** The mode _deletePath gives a directory before reading it, if it must change it. */
  function AccessibleMode(mode: bv32): (r: Option<bv32>)
    ensures r.None? <==> SameUnder(mode, PermMask, PermMask)
    ensures r.Some? ==> SameUnder(r.value, PermMask, PermMask)
    ensures r.Some? ==> SameUnder(r.value, mode, !PermMask)
  {
    if mode & PermMask != PermMask then Some(mode | PermMask) else None
  }

  // ---------------------------------------------------------------------------------
  // Recursive deletion

  /** What lstat and readdir report: a non-directory with its size and link count, or a
      directory with its mode and its entries in readdir order ("." and ".." included). */
  datatype Node =
    | NonDir(size: nat, nlink: nat)
    | Dir(mode: bv32, entries: seq<DirEntry>)

  datatype DirEntry = DirEntry(name: string, node: Node)

  predicate IsDotEntry(name: string)
  {
    name == "." || name == ".."
  }

  /** The bytes deleting a node frees: the size of every non-directory with one or two links. */
  function Freed(n: Node): nat
    decreases n, if n.Dir? then |n.entries| + 1 else 0
  {
    match n
    case NonDir(size, nlink) => if nlink == 1 || nlink == 2 then size else 0
    case Dir(_, entries) => FreedUpTo(n, |entries|)
  }

  /** The bytes freed by the first k entries of a directory. */
  function FreedUpTo(n: Node, k: nat): nat
    requires n.Dir? && k <= |n.entries|
    decreases n, k
  {
    if k == 0 then 0
    else
      var e := n.entries[k - 1];
      assert e in n.entries;
      FreedUpTo(n, k - 1) + (if IsDotEntry(e.name) then 0 else Freed(e.node))
  }

  /** The total size of the non-directories below a node. */
  function Size(n: Node): nat
    decreases n, if n.Dir? then |n.entries| + 1 else 0
  {
    match n
    case NonDir(size, _) => size
    case Dir(_, entries) => SizeUpTo(n, |entries|)
  }

  function SizeUpTo(n: Node, k: nat): nat
    requires n.Dir? && k <= |n.entries|
    decreases n, k
  {
    if k == 0 then 0
    else
      var e := n.entries[k - 1];
      assert e in n.entries;
      SizeUpTo(n, k - 1) + (if IsDotEntry(e.name) then 0 else Size(e.node))
  }

  /** Every non-directory below has at most `max` links and at least `min`. */
  predicate LinksWithin(n: Node, min: nat, max: nat)
    decreases n
  {
    match n
    case NonDir(_, nlink) => min <= nlink <= max
    case Dir(_, entries) =>
      forall k :: 0 <= k < |entries| ==> (entries[k] in entries && (IsDotEntry(entries[k].name) || LinksWithin(entries[k].node, min, max)))
  }

  /** Every non-directory below has at least `min` links. */
  predicate LinksAtLeast(n: Node, min: nat)
    decreases n
  {
    match n
    case NonDir(_, nlink) => min <= nlink
    case Dir(_, entries) =>
      forall k :: 0 <= k < |entries| ==> (entries[k] in entries && (IsDotEntry(entries[k].name) || LinksAtLeast(entries[k].node, min)))
  }

  /** _deletePath once the entry is stat'ed: delete the node and everything below it, adding
      what is freed to `bytesFreed`. */
  method DeleteNode(n: Node, bytesFreed: nat) returns (total: nat)
    ensures total == bytesFreed + Freed(n)
    decreases n
  {
    total := bytesFreed;
    match n {
      case NonDir(size, nlink) =>
        if nlink == 1 {
          total := total + size;
        } else if nlink == 2 {
          total := total + size;
        }
      case Dir(_, entries) =>
        for k := 0 to |entries|
          invariant total == bytesFreed + FreedUpTo(n, k)
        {
          var childName := entries[k].name;
          if IsDotEntry(childName) {
            continue;
          }
          assert entries[k] in entries;
          total := DeleteNode(entries[k].node, total);
        }
    }
  }

  /** The first entry named `name`, if any. */
  function FindEntry(entries: seq<DirEntry>, name: string): (r: Option<Node>)
    ensures r.None? <==> forall k :: 0 <= k < |entries| ==> entries[k].name != name
    ensures r.Some? ==> exists k :: 0 <= k < |entries| && entries[k] == DirEntry(name, r.value)
  {
    if entries == [] then None
    else if entries[0].name == name then Some(entries[0].node)
    else
      var r := FindEntry(entries[1..], name);
      assert forall k :: 1 <= k < |entries| ==> entries[1..][k - 1] == entries[k];
      r
  }

  function WithoutEntry(entries: seq<DirEntry>, name: string): (r: seq<DirEntry>)
    ensures forall e :: e in r <==> e in entries && e.name != name
    ensures (forall k :: 0 <= k < |entries| ==> entries[k].name != name) ==> r == entries
  {
    if entries == [] then []
    else (if entries[0].name == name then [] else [entries[0]]) + WithoutEntry(entries[1..], name)
  }

  /** deletePath(path, bytesFreed): reset the count, find the entry in its parent directory
      (None: the parent does not exist, ENOENT), delete it, and return what is left of
      the parent with the count. A missing entry is not an error. */
  method DeletePath(parent: Option<seq<DirEntry>>, path: string)
    returns (remaining: Option<seq<DirEntry>>, bytesFreed: nat)
    ensures parent.None? ==> remaining.None? && bytesFreed == 0
    ensures parent.Some? ==> remaining == Some(WithoutEntry(parent.value, BaseName(path)))
    ensures parent.Some? ==>
              bytesFreed == (match FindEntry(parent.value, BaseName(path)) case None => 0 case Some(n) => Freed(n))
  {
    bytesFreed := 0;
    if parent.None? {
      return None, bytesFreed;
    }
    var name := BaseNameOf(path);
    var node := FindEntry(parent.value, name);
    if node.None? {
      return parent, bytesFreed;
    }
    bytesFreed := DeleteNode(node.value, bytesFreed);
    remaining := Some(WithoutEntry(parent.value, name));
  }

  lemma {:induction false} FreedAtMostSize(n: Node)
    ensures Freed(n) <= Size(n)
    decreases n, if n.Dir? then |n.entries| + 1 else 0
  {
    if n.Dir? {
      FreedUpToAtMostSize(n, |n.entries|);
    }
  }

  lemma {:induction false} FreedUpToAtMostSize(n: Node, k: nat)
    requires n.Dir? && k <= |n.entries|
    ensures FreedUpTo(n, k) <= SizeUpTo(n, k)
    decreases n, k
  {
    if k > 0 {
      assert n.entries[k - 1] in n.entries;
      FreedUpToAtMostSize(n, k - 1);
      FreedAtMostSize(n.entries[k - 1].node);
    }
  }

  /** Files with one or two links all count, so deleting such a tree frees its whole size. */
  lemma {:induction false} FreedAllWhenFewLinks(n: Node)
    requires LinksWithin(n, 1, 2)
    ensures Freed(n) == Size(n)
    decreases n, if n.Dir? then |n.entries| + 1 else 0
  {
    if n.Dir? {
      FreedUpToAllWhenFewLinks(n, |n.entries|);
    }
  }

  lemma {:induction false} FreedUpToAllWhenFewLinks(n: Node, k: nat)
    requires n.Dir? && k <= |n.entries| && LinksWithin(n, 1, 2)
    ensures FreedUpTo(n, k) == SizeUpTo(n, k)
    decreases n, k
  {
    if k > 0 {
      assert n.entries[k - 1] in n.entries;
      FreedUpToAllWhenFewLinks(n, k - 1);
      if !IsDotEntry(n.entries[k - 1].name) {
        FreedAllWhenFewLinks(n.entries[k - 1].node);
      }
    }
  }

  /** Files with three or more links are shared elsewhere: deleting them frees nothing. */
  lemma {:induction false} FreedNothingWhenShared(n: Node)
    requires LinksAtLeast(n, 3)
    ensures Freed(n) == 0
    decreases n, if n.Dir? then |n.entries| + 1 else 0
  {
    if n.Dir? {
      FreedUpToNothingWhenShared(n, |n.entries|);
    }
  }

  lemma {:induction false} FreedUpToNothingWhenShared(n: Node, k: nat)
    requires n.Dir? && k <= |n.entries| && LinksAtLeast(n, 3)
    ensures FreedUpTo(n, k) == 0
    decreases n, k
  {
    if k > 0 {
      assert n.entries[k - 1] in n.entries;
      FreedUpToNothingWhenShared(n, k - 1);
      if !IsDotEntry(n.entries[k - 1].name) {
        FreedNothingWhenShared(n.entries[k - 1].node);
      }
    }
  }
}
