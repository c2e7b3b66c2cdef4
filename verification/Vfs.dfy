/** The mount table and the path normaliser of the virtual file system. */
module Vfs {
  import opened Lists

  const POOL := 16
  const MAX_PATH := 256

  // Paths.  A string holds no terminator; `CharAt` is what a C string shows at an index.

  function CharAt(s: string, i: nat): char { if i < |s| then s[i] else '\0' }

  /** path_overlap: one path is the other, or leads into it at a component boundary; the root
      conflicts only with itself. */
  predicate Overlap(a: string, b: string) {
    if a == "/" then b == "/"
    else if b == "/" then a == "/"
    else if |a| <= |b| then a <= b && (CharAt(b, |a|) == '/' || CharAt(b, |a|) == '\0')
    else b <= a && (CharAt(a, |b|) == '/' || CharAt(a, |b|) == '\0')
  }

  /** A mount point takes a path at a component boundary. */
  predicate Covers(mount: string, path: string) {
    mount <= path && (CharAt(path, |mount|) == '/' || CharAt(path, |mount|) == '\0')
  }

  /** A mount point takes itself and what continues it with a slash, and nothing else. */
  lemma CoversIff(mount: string, path: string)
    requires '\0' !in path
    ensures Covers(mount, path) <==> path == mount || mount + "/" <= path
  {
    if Covers(mount, path) && path != mount {
      assert (mount + "/")[..|mount|] == mount;
      assert path[..|mount| + 1] == mount + "/";
    }
  }

  /** Two paths other than the root overlap when they are the same or one continues the other with a slash. */
  lemma OverlapIff(a: string, b: string)
    requires '\0' !in a && '\0' !in b && a != "/" && b != "/"
    ensures Overlap(a, b) <==> a == b || a + "/" <= b || b + "/" <= a
  {
    CoversIff(a, b);
    CoversIff(b, a);
    assert |a| == |b| ==> (a <= b <==> a == b);
    assert Overlap(a, b) <==> if |a| <= |b| then Covers(a, b) else Covers(b, a);
  }

  lemma OverlapSymmetric(a: string, b: string)
    ensures Overlap(a, b) <==> Overlap(b, a)
  {
    assert |a| == |b| && (a <= b || b <= a) ==> a == b;
  }

  /** Two mount points that take the same path overlap. */
  lemma CoversOverlap(a: string, b: string, path: string)
    requires a != "/" && b != "/" && Covers(a, path) && Covers(b, path) && '\0' !in path
    ensures Overlap(a, b)
  {
    if |a| <= |b| {
      assert a == path[..|a|] && b == path[..|b|];
      assert a <= b;
      assert |a| < |b| ==> b[|a|] == path[|a|];
    } else {
      assert a == path[..|a|] && b == path[..|b|];
      assert b <= a;
      assert a[|b|] == path[|b|];
    }
  }

  // Mounting.

  datatype Mount = Mount(path: string, root: nat)
  datatype Code = Ok | Invalid | NameTooLong | Exists | NoMemory | Busy | NoEntry

  /** The mounted entries, in list order. */
  ghost predicate Apart(paths: seq<string>) {
    && (forall i :: 0 <= i < |paths| ==> paths[i] != "/" && 1 < |paths[i]| < MAX_PATH && paths[i][0] == '/' && '\0' !in paths[i])
    && (forall i, j :: 0 <= i < j < |paths| ==> !Overlap(paths[i], paths[j]))
  }

  /** At most one mount point takes a path. */
  lemma CoverUnique(paths: seq<string>, path: string, i: nat, j: nat)
    requires Apart(paths) && '\0' !in path && i < |paths| && j < |paths| && Covers(paths[i], path) && Covers(paths[j], path)
    ensures i == j
  {
    if i != j {
      CoversOverlap(paths[i], paths[j], path);
      OverlapSymmetric(paths[i], paths[j]);
      assert false;
    }
  }

  /** The result of the match does not depend on the order of the list. */
  lemma MatchOrderFree(a: seq<string>, b: seq<string>, path: string, i: nat, j: nat)
    requires Apart(a) && multiset(a) == multiset(b) && '\0' !in path
    requires i < |a| && j < |b| && Covers(a[i], path) && Covers(b[j], path)
    ensures a[i] == b[j]
  {
    assert b[j] in multiset(b);
    assert b[j] in a;
    var k :| 0 <= k < |a| && a[k] == b[j];
    CoverUnique(a, path, i, k);
  }

  ghost predicate InUse(pool: seq<Option<Mount>>, list: seq<nat>) {
    forall i :: 0 <= i < |list| ==> list[i] < |pool| && pool[list[i]].Some?
  }

  /** Every listed pool entry is in use and listed once, and no other is in use. */
  ghost predicate Linked(pool: seq<Option<Mount>>, list: seq<nat>) {
    |pool| == POOL && NoDup(list) && InUse(pool, list) && forall n :: 0 <= n < POOL && pool[n].Some? ==> n in list
  }

  /** The mounted paths, in list order. */
  ghost function PathsOf(pool: seq<Option<Mount>>, list: seq<nat>): (p: seq<string>)
    requires InUse(pool, list)
    ensures |p| == |list| && forall i :: 0 <= i < |list| ==> p[i] == pool[list[i]].value.path
  {
    if list == [] then [] else [pool[list[0]].value.path] + PathsOf(pool, list[1..])
  }

  lemma PathsFrame(pool: seq<Option<Mount>>, list: seq<nat>, n: nat, m: Option<Mount>)
    requires InUse(pool, list) && n < |pool| && n !in list
    ensures InUse(pool[n := m], list) && PathsOf(pool[n := m], list) == PathsOf(pool, list)
  {
    assert forall i :: 0 <= i < |list| ==> list[i] in list;
  }

  lemma MountedApart(paths: seq<string>, path: string)
    requires Apart(paths) && 0 < |path| < MAX_PATH && path[0] == '/' && path != "/" && '\0' !in path
    requires forall i :: 0 <= i < |paths| ==> !Overlap(paths[i], path)
    ensures Apart([path] + paths)
  {
    var p := [path] + paths;
    assert |path| == 1 ==> path == "/";
    forall j | 0 <= j < |paths| ensures !Overlap(path, paths[j]) {
      OverlapSymmetric(path, paths[j]);
    }
    hide Overlap;
  }

  lemma CutApart(paths: seq<string>, i: nat)
    requires Apart(paths) && i < |paths|
    ensures Apart(paths[..i] + paths[i + 1..])
  {
    hide Overlap;
  }

  function Cut(list: seq<nat>, i: nat): (r: seq<nat>)
    requires i < |list|
    ensures |r| == |list| - 1 && forall j :: 0 <= j < |r| ==> r[j] == list[if j < i then j else j + 1]
  {
    list[..i] + list[i + 1..]
  }

  lemma PathsCut(pool: seq<Option<Mount>>, list: seq<nat>, i: nat)
    requires InUse(pool, list) && i < |list| && NoDup(list)
    ensures InUse(pool[list[i] := None], Cut(list, i))
    ensures PathsOf(pool[list[i] := None], Cut(list, i)) == PathsOf(pool, list)[..i] + PathsOf(pool, list)[i + 1..]
  {
    hide Cut;
    var rest := Cut(list, i);
    assert list[i] !in rest;
    PathsFrame(pool, rest, list[i], None);
    var p, q := PathsOf(pool, rest), PathsOf(pool, list);
    assert forall j :: 0 <= j < |p| ==> p[j] == q[if j < i then j else j + 1];
  }

  class MountTable {
    var pool: seq<Option<Mount>>
    var list: seq<nat>            // pool entries, newest first

    ghost predicate Valid()
      reads this
    {
      Linked(pool, list) && Apart(PathsOf(pool, list))
    }

    ghost function Paths(): seq<string>
      requires Valid()
      reads this
    {
      PathsOf(pool, list)
    }

    constructor ()
      ensures Valid() && list == []
    {
      pool, list := seq(POOL, _ => None), [];
    }

    method FreeEntry() returns (r: Option<nat>)
      requires |pool| == POOL
      ensures r.Some? ==> r.value < POOL && pool[r.value].None? && forall j :: 0 <= j < r.value ==> pool[j].Some?
      ensures r.None? ==> forall j :: 0 <= j < POOL ==> pool[j].Some?
    {
      for i := 0 to POOL
        invariant forall j :: 0 <= j < i ==> pool[j].Some?
      {
        if pool[i].None? {
          return Some(i);
        }
      }
      return None;
    }

    /** Whether a path overlaps a mounted one. */
    method Conflicts(path: string) returns (yes: bool)
      requires Valid()
      ensures yes <==> exists i :: 0 <= i < |Paths()| && Overlap(Paths()[i], path)
    {
      hide Apart, Overlap;
      var i := 0;
      while i < |list|
        invariant i <= |list| && forall j :: 0 <= j < i ==> !Overlap(Paths()[j], path)
      {
        if Overlap(pool[list[i]].value.path, path) {
          assert Overlap(Paths()[i], path);
          return true;
        }
        i := i + 1;
      }
      return false;
    }

    /** vfs_mount: a path that overlaps a mounted one is refused. */
    method MountAt(path: string, root: nat) returns (code: Code)
      requires Valid() && '\0' !in path
      modifies this
      ensures Valid()
      ensures code == Ok ==>
        && Paths() == [path] + old(Paths()) && list != [] && list[1..] == old(list)
        && old(pool)[list[0]].None? && pool == old(pool)[list[0] := Some(Mount(path, root))]
      ensures code != Ok ==> pool == old(pool) && list == old(list)
      ensures code ==
        if |path| == 0 || |path| >= MAX_PATH then NameTooLong
        else if path[0] != '/' then Invalid
        else if path == "/" || exists m :: m in old(Paths()) && (m == path || m + "/" <= path || path + "/" <= m) then Exists
        else if forall n :: 0 <= n < POOL ==> old(pool)[n].Some? then NoMemory
        else Ok
    {
      hide Apart, Overlap;
      if |path| == 0 || |path| >= MAX_PATH {
        return NameTooLong;
      }
      if path[0] != '/' {
        return Invalid;
      }
      var conflict := Conflicts(path);
      RootOverlap(path);
      if path != "/" {
        ConflictIff(Paths(), path);
      }
      if conflict || Overlap("/", path) {
        return Exists;
      }
      var slot := FreeEntry();
      if slot.None? {
        return NoMemory;
      }
      MountedApart(Paths(), path);
      PathsFrame(pool, list, slot.value, Some(Mount(path, root)));
      pool := pool[slot.value := Some(Mount(path, root))];
      list := [slot.value] + list;
      assert list[1..] == old(list);
      return Ok;
    }

    /** Entry `i` of the list is unlinked and its pool entry cleared. */
    method DropEntry(i: nat)
      requires Valid() && i < |list|
      modifies this
      ensures Valid() && Paths() == old(Paths())[..i] + old(Paths())[i + 1..]
      ensures list == Cut(old(list), i) && pool == old(pool)[old(list)[i] := None]
    {
      hide Apart;
      CutApart(Paths(), i);
      PathsCut(pool, list, i);
      CutLinked(pool, list, i);
      pool := pool[list[i] := None];
      list := Cut(list, i);
    }

    /** vfs_umount: exactly the mount point with that path goes. */
    method Unmount(path: string) returns (code: Code)
      requires Valid()
      modifies this
      ensures Valid()
      ensures code != Ok ==> pool == old(pool) && list == old(list)
      ensures code ==
        if |path| == 0 || |path| >= MAX_PATH then NameTooLong
        else if path == "/" then Busy
        else if path in old(Paths()) then Ok
        else NoEntry
      ensures code == Ok ==> exists i ::
        && 0 <= i < |old(Paths())| && old(Paths())[i] == path && Paths() == old(Paths())[..i] + old(Paths())[i + 1..]
        && list == Cut(old(list), i) && pool == old(pool)[old(list)[i] := None]
    {
      hide Apart;
      if |path| == 0 || |path| >= MAX_PATH {
        return NameTooLong;
      }
      if path == "/" {
        return Busy;
      }
      var i := 0;
      while i < |list|
        invariant i <= |list| && pool == old(pool) && list == old(list)
        invariant forall j :: 0 <= j < i ==> Paths()[j] != path
      {
        if pool[list[i]].value.path == path {
          assert Paths()[i] == path;
          DropEntry(i);
          return Ok;
        }
        i := i + 1;
      }
      return NoEntry;
    }

    /** vfs_match_mount: the mount point that takes the path, or the root; `rest` is what follows. */
    method MatchMount(path: string) returns (best: Option<nat>, rest: string)
      requires Valid() && path != "" && path[0] == '/' && '\0' !in path
      ensures forall i :: 0 <= i < |Paths()| ==> (best == Some(i) <==> path == Paths()[i] || Paths()[i] + "/" <= path)
      ensures best.Some? ==>
        && best.value < |Paths()|
        && if path == Paths()[best.value] then rest == "" else path == Paths()[best.value] + "/" + rest
      ensures best.None? ==> path == "/" + rest
    {
      hide Overlap, Covers, Apart, Linked;
      LinkedUse(pool, list);
      ApartLong(Paths());
      var bestLen := 1;
      best := None;
      for i := 0 to |list|
        invariant best.None? ==> bestLen == 1 && forall j :: 0 <= j < i ==> !Covers(Paths()[j], path)
        invariant best.Some? ==> best.value < i && Covers(Paths()[best.value], path) && bestLen == |Paths()[best.value]|
      {
        var m := pool[list[i]].value;
        assert m.path == Paths()[i];
        if Covers(m.path, path) && |m.path| > bestLen {
          best, bestLen := Some(i), |m.path|;
        }
      }
      forall i | 0 <= i < |Paths()| ensures best == Some(i) <==> path == Paths()[i] || Paths()[i] + "/" <= path {
        CoversIff(Paths()[i], path);
        if best.Some? && Covers(Paths()[i], path) {
          CoverUnique(Paths(), path, best.value, i);
        }
      }
      if best.Some? {
        CoverEnds(Paths()[best.value], path);
      }
      rest := path[bestLen..];
      if rest != "" && rest[0] == '/' && bestLen > 1 {
        rest := rest[1..];
      }
    }
  }

  lemma LinkedUse(pool: seq<Option<Mount>>, list: seq<nat>)
    requires Linked(pool, list)
    ensures InUse(pool, list) && |PathsOf(pool, list)| == |list|
  {
  }

  lemma ApartLong(paths: seq<string>)
    requires Apart(paths)
    ensures forall i :: 0 <= i < |paths| ==> |paths[i]| > 1
  {
  }

  lemma RootOverlap(path: string)
    ensures Overlap("/", path) <==> path == "/"
  {
  }

  lemma CoverEnds(mount: string, path: string)
    requires Covers(mount, path) && '\0' !in path
    ensures |mount| <= |path| && (|mount| == |path| <==> mount == path)
    ensures |mount| < |path| ==> path[|mount|] == '/' && path == mount + "/" + path[|mount| + 1..]
  {
  }

  lemma ConflictIff(paths: seq<string>, path: string)
    requires Apart(paths) && '\0' !in path && path != "/"
    ensures (exists i :: 0 <= i < |paths| && Overlap(paths[i], path))
      <==> (exists m :: m in paths && (m == path || m + "/" <= path || path + "/" <= m))
  {
    forall i | 0 <= i < |paths| ensures var m := paths[i]; Overlap(m, path) <==> m == path || m + "/" <= path || path + "/" <= m {
      OverlapIff(paths[i], path);
    }
    hide Overlap;
    if i :| 0 <= i < |paths| && Overlap(paths[i], path) {
      assert paths[i] in paths;
    }
    if m :| m in paths && (m == path || m + "/" <= path || path + "/" <= m) {
      var i :| 0 <= i < |paths| && paths[i] == m;
      assert Overlap(paths[i], path);
    }
  }

  lemma CutNoDup(list: seq<nat>, i: nat)
    requires NoDup(list) && i < |list|
    ensures NoDup(Cut(list, i)) && forall n :: n in list && n != list[i] ==> n in Cut(list, i)
  {
    hide Cut;
    var rest := Cut(list, i);
    forall n | n in list && n != list[i] ensures n in rest {
      var j :| 0 <= j < |list| && list[j] == n;
      assert rest[if j < i then j else j - 1] == n;
    }
  }

  lemma CutLinked(pool: seq<Option<Mount>>, list: seq<nat>, i: nat)
    requires Linked(pool, list) && i < |list|
    ensures list[i] < POOL && Linked(pool[list[i] := None], Cut(list, i))
  {
    hide Cut, NoDup;
    PathsCut(pool, list, i);
    CutNoDup(list, i);
  }

  // Normalising a path.

  /** Repeated slashes made one; `prev` is the character before. */
  function Collapse(s: string, prev: char): (r: string)
    ensures |r| <= |s|
  {
    if s == "" then ""
    else if s[0] == '/' && prev == '/' then Collapse(s[1..], prev)
    else [s[0]] + Collapse(s[1..], s[0])
  }

  /** Trailing slashes removed, except a lone one. */
  function Strip(s: string): (r: string)
    ensures |r| <= |s|
  {
    if |s| > 1 && s[|s| - 1] == '/' then Strip(s[..|s| - 1]) else s
  }

  function Normal(s: string): string { Strip(Collapse(s, '\0')) }

  /** The non-empty parts between slashes, `cur` being the part begun. */
  function Components(s: string, cur: string): seq<string> {
    if s == "" then (if cur == "" then [] else [cur])
    else if s[0] == '/' then (if cur == "" then [] else [cur]) + Components(s[1..], "")
    else Components(s[1..], cur + [s[0]])
  }

  function Joined(parts: seq<string>): string {
    if parts == [] then "" else "/" + parts[0] + Joined(parts[1..])
  }

  /** The reference: split at the slashes, drop what is empty, and join again. */
  function Rebuilt(s: string): string {
    var parts := Components(s, ""); if parts == [] then "/" else Joined(parts)
  }

  /** All trailing slashes removed. */
  function StripAll(s: string): (r: string)
    ensures |r| <= |s|
  {
    if s != "" && s[|s| - 1] == '/' then StripAll(s[..|s| - 1]) else s
  }

  lemma {:induction false} StripRoot(s: string)
    requires s != "" && s[0] == '/'
    ensures Strip(s) == if StripAll(s) == "" then "/" else StripAll(s)
    decreases |s|
  {
    if |s| > 1 && s[|s| - 1] == '/' {
      StripRoot(s[..|s| - 1]);
    } else if |s| == 1 {
      assert s == "/" && s[..0] == "";
    }
  }

  lemma {:induction false} StripConcat(a: string, b: string)
    ensures StripAll(a + b) == if StripAll(b) == "" then StripAll(a) else a + StripAll(b)
    decreases |b|
  {
    if b == "" {
      assert a + b == a;
    } else if b[|b| - 1] == '/' {
      var c := b[..|b| - 1];
      assert (a + b)[..|a + b| - 1] == a + c;
      StripConcat(a, c);
    }
  }

  function Last(cur: string): char { if cur == "" then '/' else cur[|cur| - 1] }

  lemma CollapseEnd(cur: string)
    requires '/' !in cur
    ensures StripAll("/" + cur + Collapse("", Last(cur))) == Joined(Components("", cur))
  {
    assert "/" + cur + Collapse("", Last(cur)) == "/" + cur;
    if cur == "" {
      assert ("/" + cur)[..0] == "";
    } else {
      assert Joined([cur]) == "/" + cur;
    }
  }

  lemma CollapseSlash(s: string, cur: string)
    requires '/' !in cur && s != "" && s[0] == '/'
    requires StripAll("/" + "" + Collapse(s[1..], '/')) == Joined(Components(s[1..], ""))
    ensures StripAll("/" + cur + Collapse(s, Last(cur))) == Joined(Components(s, cur))
  {
    hide StripAll;
    var rest := "/" + Collapse(s[1..], '/');
    assert "/" + "" + Collapse(s[1..], '/') == rest;
    var parts := Components(s[1..], "");
    if cur == "" {
      assert Collapse(s, '/') == Collapse(s[1..], '/');
      assert "/" + cur + Collapse(s, Last(cur)) == rest;
      assert [] + parts == parts;
    } else {
      assert Collapse(s, Last(cur)) == rest;
      assert "/" + cur + Collapse(s, Last(cur)) == ("/" + cur) + rest;
      StripConcat("/" + cur, rest);
      StripPart(cur);
      assert Components(s, cur) == [cur] + parts;
      assert ([cur] + parts)[1..] == parts;
      assert Joined([cur] + parts) == "/" + cur + Joined(parts);
    }
  }

  lemma StripPart(cur: string)
    requires cur != "" && '/' !in cur
    ensures StripAll("/" + cur) == "/" + cur
  {
  }

  lemma CollapseChar(s: string, cur: string)
    requires '/' !in cur && s != "" && s[0] != '/'
    ensures "/" + cur + Collapse(s, Last(cur)) == "/" + (cur + [s[0]]) + Collapse(s[1..], Last(cur + [s[0]]))
    ensures Components(s, cur) == Components(s[1..], cur + [s[0]])
  {
    var rest := Collapse(s[1..], s[0]);
    assert Collapse(s, Last(cur)) == [s[0]] + rest && Last(cur + [s[0]]) == s[0];
    hide Collapse, Components;
    assert "/" + cur + ([s[0]] + rest) == "/" + (cur + [s[0]]) + rest;
  }

  /** Collapsing and stripping what follows a slash and the part `cur` gives the parts joined. */
  lemma {:induction false} CollapseParts(s: string, cur: string)
    requires '/' !in cur
    ensures StripAll("/" + cur + Collapse(s, Last(cur))) == Joined(Components(s, cur))
    decreases |s|
  {
    hide StripAll, Joined, Collapse, Components;
    if s == "" {
      CollapseEnd(cur);
    } else if s[0] == '/' {
      CollapseParts(s[1..], "");
      CollapseSlash(s, cur);
    } else {
      CollapseParts(s[1..], cur + [s[0]]);
      CollapseChar(s, cur);
    }
  }

  /** On absolute paths normalising is splitting and joining. */
  lemma NormalRebuilds(s: string)
    requires s != "" && s[0] == '/'
    ensures Normal(s) == Rebuilt(s)
  {
    var c := Collapse(s[1..], '/');
    assert Collapse(s, '\0') == "/" + c == "/" + "" + c;
    CollapseParts(s[1..], "");
    StripRoot("/" + c);
    assert Components(s, "") == Components(s[1..], "");
    PartsProper(s[1..], "");
    JoinedEmpty(Components(s[1..], ""));
  }

  ghost predicate Proper(parts: seq<string>) {
    forall i :: 0 <= i < |parts| ==> parts[i] != "" && '/' !in parts[i]
  }

  lemma {:induction false} PartsProper(s: string, cur: string)
    requires '/' !in cur
    ensures Proper(Components(s, cur))
    decreases |s|
  {
    if s != "" {
      PartsProper(s[1..], if s[0] == '/' then "" else cur + [s[0]]);
    }
  }

  lemma JoinedEmpty(parts: seq<string>)
    ensures Joined(parts) == "" <==> parts == []
  {
  }

  lemma {:induction false} WholePart(part: string, rest: string, cur: string)
    requires '/' !in part && '/' !in cur
    ensures Components(part + rest, cur) == Components(rest, cur + part)
    decreases |part|
  {
    if part == "" {
      assert part + rest == rest && cur + part == cur;
    } else {
      assert (part + rest)[1..] == part[1..] + rest;
      WholePart(part[1..], rest, cur + [part[0]]);
      assert cur + [part[0]] + part[1..] == cur + part;
    }
  }

  lemma {:induction false} SplitJoined(parts: seq<string>)
    requires Proper(parts)
    ensures Components(Joined(parts), "") == parts
    decreases |parts|
  {
    if parts != [] {
      var rest := Joined(parts[1..]);
      assert Joined(parts) == "/" + parts[0] + rest;
      assert Joined(parts)[1..] == parts[0] + rest;
      WholePart(parts[0], rest, "");
      assert "" + parts[0] == parts[0];
      SplitJoined(parts[1..]);
      if parts[1..] == [] {
        assert rest == "";
      } else {
        assert rest[0] == '/';
        assert Components(rest, parts[0]) == [parts[0]] + Components(rest[1..], "");
        assert Components(rest, "") == [] + Components(rest[1..], "");
      }
    }
  }

  /** Normalising an absolute path again changes nothing. */
  lemma NormalIdempotent(s: string)
    requires s != "" && s[0] == '/'
    ensures Normal(s) != "" && Normal(s)[0] == '/' && Normal(Normal(s)) == Normal(s)
  {
    NormalRebuilds(s);
    PartsProper(s, "");
    var parts := Components(s, "");
    if parts == [] {
      assert Components("/", "") == Components("/"[1..], "");
      assert "/"[1..] == "";
    } else {
      SplitJoined(parts);
    }
    NormalRebuilds(Normal(s));
  }

  /** The C string that a buffer holds. */
  function CString(b: seq<char>): (s: string)
    ensures |s| <= |b| && s == b[..|s|] && '\0' !in s && (|s| < |b| ==> b[|s|] == '\0')
  {
    if b == [] || b[0] == '\0' then "" else [b[0]] + CString(b[1..])
  }

  lemma {:induction false} CStringIs(b: seq<char>, n: nat)
    requires n < |b| && '\0' !in b[..n] && b[n] == '\0'
    ensures CString(b) == b[..n]
  {
    if n > 0 {
      assert b[0] == b[..n][0];
      assert b[1..][..n - 1] == b[1..n] && forall c :: c in b[1..n] ==> c in b[..n];
      CStringIs(b[1..], n - 1);
      assert b[..n] == [b[0]] + b[1..n];
    }
  }

  /** The first loop of vfs_normalize_path: slashes are collapsed as the buffer is shifted down. */
  method CollapseInPlace(path: array<char>) returns (len: nat)
    requires exists k :: 0 <= k < path.Length && path[k] == '\0'
    modifies path
    ensures len < path.Length && path[len] == '\0' && path[..len] == Collapse(CString(old(path[..])), '\0') && '\0' !in path[..len]
  {
    hide Collapse, CString;
    ghost var s := CString(path[..]);
    ghost var done := "";
    var src, dst, prev := 0, 0, '\0';
    assert s[0..] == s && "" + Collapse(s, '\0') == Collapse(s, '\0');
    while path[src] != '\0'
      invariant dst <= src <= |s| < path.Length && path[|s|] == '\0'
      invariant forall k :: src <= k < |s| ==> path[k] == s[k]
      invariant dst == |done| && path[..dst] == done && '\0' !in done
      invariant Collapse(s, '\0') == done + Collapse(s[src..], prev)
      decreases |s| - src
    {
      CollapseStep(s, src, prev, done);
      if path[src] == '/' && prev == '/' {
        src := src + 1;
      } else {
        prev := path[src];
        path[dst] := prev;
        dst := dst + 1;
        src := src + 1;
        assert path[..dst] == done + [prev];
        done := done + [prev];
      }
    }
    CollapseStop(s, src, prev);
    path[dst] := '\0';
    assert path[..dst] == done == done + "";
    return dst;
  }

  lemma CollapseStep(s: string, src: nat, prev: char, done: string)
    requires src < |s| && Collapse(s, '\0') == done + Collapse(s[src..], prev)
    ensures Collapse(s, '\0') ==
      (if s[src] == '/' && prev == '/' then done + Collapse(s[src + 1..], prev)
       else (done + [s[src]]) + Collapse(s[src + 1..], s[src]))
  {
    assert s[src..][1..] == s[src + 1..];
    var rest := Collapse(s[src + 1..], s[src]);
    assert done + ([s[src]] + rest) == (done + [s[src]]) + rest;
  }

  lemma CollapseStop(s: string, src: nat, prev: char)
    requires src == |s|
    ensures Collapse(s[src..], prev) == ""
  {
  }

  /** vfs_normalize_path, in a buffer of at most MAX_PATH characters. */
  method Normalize(path: array<char>)
    requires path.Length <= MAX_PATH && exists k :: 0 <= k < path.Length && path[k] == '\0'
    modifies path
    ensures CString(path[..]) == Normal(old(CString(path[..])))
  {
    hide Collapse, CString;
    var len := CollapseInPlace(path);
    ghost var c := path[..len];
    while len > 1 && path[len - 1] == '/'
      invariant len < path.Length && path[len] == '\0' && '\0' !in path[..len] && Strip(path[..len]) == Strip(c)
    {
      assert path[..len][..len - 1] == path[..len - 1];
      ghost var shorter := path[..len - 1];
      path[len - 1] := '\0';
      len := len - 1;
      assert path[..len] == shorter;
    }
    CStringIs(path[..], len);
    assert path[..][..len] == path[..len];
  }
}
