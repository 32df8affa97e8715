/**
 * Member order of the release archive: the creator (scripts/create-reproducible-tar.py) lists a staged
 * tree, the verifier (scripts/verify-packaged-boundary.py) lists what it expects. Paths are POSIX texts;
 * an enumeration of a set or directory is a sequence in whatever order the system yields it.
 */
module ArchiveOrder {
  import opened Basics

  // ----- text order, as Python compares strings

  predicate Less(a: string, b: string) {
    if b == "" then false
    else if a == "" then true
    else if a[0] != b[0] then a[0] < b[0]
    else Less(a[1..], b[1..])
  }

  predicate Sorted(s: seq<string>) {
    forall i, j | 0 <= i < j < |s| :: Less(s[i], s[j])
  }

  function Insert(x: string, s: seq<string>): seq<string> {
    if s == [] then [x]
    else if Less(s[0], x) then [s[0]] + Insert(x, s[1..])
    else [x] + s
  }

  function Sort(s: seq<string>): seq<string> {
    if s == [] then [] else Insert(s[0], Sort(s[1..]))
  }

  predicate Distinct(s: seq<string>) {
    forall i, j | 0 <= i < j < |s| :: s[i] != s[j]
  }

  lemma {:induction false} LessIsTotal(a: string, b: string)
    ensures Less(a, b) || Less(b, a) || a == b
    ensures !(Less(a, b) && Less(b, a)) && !Less(a, a)
  {
    if a != "" && b != "" {
      LessIsTotal(a[1..], b[1..]);
      LessIsTotal(a[1..], a[1..]);
      assert a == [a[0]] + a[1..] && b == [b[0]] + b[1..];
    } else if a != "" {
      LessIsTotal(a[1..], a[1..]);
    }
  }

  lemma {:induction false} LessIsTransitive(a: string, b: string, c: string)
    requires Less(a, b) && Less(b, c)
    ensures Less(a, c)
  {
    if a != "" && a[0] == b[0] && b[0] == c[0] {
      LessIsTransitive(a[1..], b[1..], c[1..]);
    }
  }

  lemma {:induction false} LessUnderPrefix(p: string, a: string, b: string)
    ensures Less(p + a, p + b) <==> Less(a, b)
  {
    if p == "" {
      assert p + a == a && p + b == b;
    } else {
      assert (p + a)[1..] == p[1..] + a && (p + b)[1..] == p[1..] + b;
      LessUnderPrefix(p[1..], a, b);
    }
  }

  lemma PrefixIsLess(a: string, rest: string)
    requires rest != ""
    ensures Less(a, a + rest)
  {
    assert a + "" == a;
    LessUnderPrefix(a, "", rest);
  }

  lemma {:induction false} InsertSorts(x: string, s: seq<string>)
    requires Sorted(s) && x !in s
    ensures Sorted(Insert(x, s))
    ensures forall y :: y in Insert(x, s) <==> y == x || y in s
  {
    if s != [] {
      assert s == [s[0]] + s[1..];
      LessIsTotal(s[0], x);
      if Less(s[0], x) {
        InsertSorts(x, s[1..]);
        var t := Insert(x, s[1..]);
        assert forall y | y in t :: Less(s[0], y);
      } else {
        forall j | 0 <= j < |s|
          ensures Less(x, s[j])
        {
          if j > 0 {
            LessIsTransitive(x, s[0], s[j]);
          }
        }
      }
    }
  }

  lemma {:induction false} SortSorts(s: seq<string>)
    requires Distinct(s)
    ensures Sorted(Sort(s))
    ensures forall y :: y in Sort(s) <==> y in s
  {
    if s != [] {
      SortSorts(s[1..]);
      InsertSorts(s[0], Sort(s[1..]));
      assert s == [s[0]] + s[1..];
    }
  }

  /** A set has only one sorted listing. */
  lemma {:induction false} SortedIsUnique(a: seq<string>, b: seq<string>)
    requires Sorted(a) && Sorted(b) && forall y :: y in a <==> y in b
    ensures a == b
  {
    if a == [] {
      assert forall i | 0 <= i < |b| :: b[i] in a;
    } else {
      assert a[0] in b && b[0] in a by {
        assert a[0] in a;
        assert b != [];
        assert b[0] in b;
      }
      FirstIsLeast(a, b[0]);
      FirstIsLeast(b, a[0]);
      LessIsTotal(a[0], b[0]);
      forall y
        ensures y in a[1..] <==> y in b[1..]
      {
        RestExcludesFirst(a, y);
        RestExcludesFirst(b, y);
      }
      SortedIsUnique(a[1..], b[1..]);
      assert a == [a[0]] + a[1..] && b == [b[0]] + b[1..];
    }
  }

  lemma FirstIsLeast(s: seq<string>, y: string)
    requires Sorted(s) && y in s
    ensures y == s[0] || Less(s[0], y)
  {
    var i :| 0 <= i < |s| && s[i] == y;
  }

  lemma RestExcludesFirst(s: seq<string>, y: string)
    requires Sorted(s) && s != []
    ensures y in s[1..] <==> y in s && y != s[0]
  {
    LessIsTotal(s[0], s[0]);
    assert s == [s[0]] + s[1..];
  }

  // ----- the creator

  datatype Entry = Directory | File(mode: nat, content: Bytes)

  datatype Member = Member(name: string, entry: Entry)

  function Named(root: string, rel: string): string { root + "/" + rel }

  function Members(names: seq<string>, entries: map<string, Entry>): (ms: seq<Member>)
    requires forall n | n in names :: n in entries
  {
    seq(|names|, i requires 0 <= i < |names| => assert names[i] in names; Member(names[i], entries[names[i]]))
  }

  /** `tree` maps each path below the source to its entry; `listing` is the recursive walk over it. */
  function Created(root: string, tree: map<string, Entry>, listing: seq<string>): (ms: seq<Member>)
    requires Lists(listing, tree.Keys)
  {
    var paths := Sort(listing);
    [Member(root, Directory)]
    + seq(|paths|, i requires 0 <= i < |paths| =>
        (SortSorts(listing); assert paths[i] in paths; Member(Named(root, paths[i]), tree[paths[i]])))
  }

  ghost predicate Lists(s: seq<string>, names: set<string>) {
    Distinct(s) && forall n :: n in s <==> n in names
  }

  method CreateMembers(root: string, tree: map<string, Entry>, listing: seq<string>) returns (members: seq<Member>)
    requires Lists(listing, tree.Keys)
    ensures members == Created(root, tree, listing)
  {
    SortSorts(listing);
    var paths := Sort(listing);
    members := [Member(root, Directory)];
    for i := 0 to |paths|
      invariant members == Created(root, tree, listing)[..i + 1]
    {
      assert paths[i] in paths;
      members := members + [Member(Named(root, paths[i]), tree[paths[i]])];
    }
  }

  // ----- the verifier

  /** The text before the last slash, or "." when there is none. */
  function Parent(s: string): (p: string)
    ensures '/' in s ==> |p| < |s| && p + "/" <= s && '/' !in s[|p| + 1..]
    ensures '/' !in s ==> p == "."
  {
    if s == "" then "."
    else if s[|s| - 1] == '/' then s[..|s| - 1]
    else
      var p := Parent(s[..|s| - 1]);
      assert s == s[..|s| - 1] + [s[|s| - 1]];
      p
  }

  /** `d` is a directory on the way from the root to `name`. */
  predicate OnTheWay(root: string, d: string, name: string) {
    d + "/" <= name && (d == root || root + "/" <= d)
  }

  predicate IsRoot(root: string) {
    root != "" && root != "." && '/' !in root
  }

  lemma ParentIsNextOnTheWay(root: string, name: string)
    requires IsRoot(root) && root + "/" <= name
    ensures OnTheWay(root, Parent(name), name) && Parent(name) != "." && Parent(name) != ""
    ensures forall d :: OnTheWay(root, d, name) <==> d == Parent(name) || OnTheWay(root, d, Parent(name))
  {
    var p := Parent(name);
    assert name[|root|] == '/';
    assert |root| <= |p|;
    forall d
      ensures OnTheWay(root, d, name) <==> d == p || OnTheWay(root, d, p)
    {
      if OnTheWay(root, d, name) {
        assert name[|d|] == '/';
        assert |d| <= |p|;
        assert d == name[..|d|] && p == name[..|p|];
        if |d| < |p| {
          assert d + "/" == name[..|d| + 1];
        }
      }
    }
  }

  /** The inner loop: climb from one file to the root. */
  method AddParents(root: string, name: string, known: set<string>) returns (directories: set<string>)
    requires IsRoot(root) && root + "/" <= name
    ensures forall d :: d in directories <==> d in known || OnTheWay(root, d, name)
  {
    ParentIsNextOnTheWay(root, name);
    directories := known;
    var parent := Parent(name);
    while parent != "." && parent != ""
      invariant parent == root || root + "/" <= parent
      invariant forall d :: d in directories || d == parent || OnTheWay(root, d, parent) <==>
                            d in known || OnTheWay(root, d, name)
      decreases |parent|
    {
      directories := directories + {parent};
      if parent == root {
        assert forall d :: !OnTheWay(root, d, root);
        break;
      }
      ParentIsNextOnTheWay(root, parent);
      parent := Parent(parent);
    }
  }

  ghost predicate IsClosure(root: string, files: set<string>, directories: set<string>) {
    forall d :: d in directories <==> d == root || exists f :: f in files && OnTheWay(root, d, f)
  }

  method DirectoryClosure(root: string, files: seq<string>) returns (directories: set<string>)
    requires IsRoot(root) && forall f | f in files :: root + "/" <= f
    ensures IsClosure(root, (set f | f in files), directories)
  {
    directories := {root};
    for k := 0 to |files|
      invariant forall d :: d in directories <==> d == root || exists i :: 0 <= i < k && OnTheWay(root, d, files[i])
    {
      assert files[k] in files;
      directories := AddParents(root, files[k], directories);
    }
  }

  function Expected(files: map<string, Entry>, directories: set<string>): (m: map<string, Entry>) {
    map n | n in directories + files.Keys :: if n in directories then Directory else files[n]
  }

  /** `pending` is the set the verifier sorts, in whatever order it is enumerated. */
  method CanonicalMembers(root: string, files: map<string, Entry>, directories: set<string>, pending: seq<string>)
    returns (members: seq<Member>)
    requires root in directories && Lists(pending, (directories - {root}) + files.Keys)
    ensures (forall n | n in [root] + Sort(pending) :: n in Expected(files, directories))
    ensures members == Members([root] + Sort(pending), Expected(files, directories))
  {
    SortSorts(pending);
    var names := [root] + Sort(pending);
    members := [];
    for i := 0 to |names|
      invariant members == Members(names, Expected(files, directories))[..i]
    {
      var name := names[i];
      assert name in names;
      if name in directories {
        members := members + [Member(name, Directory)];
      } else {
        members := members + [Member(name, files[name])];
      }
    }
  }

  // ----- the two lists agree

  /** The reviewed layout: files below the root, with the closure as its directories. */
  ghost predicate Layout(root: string, files: map<string, Entry>, directories: set<string>) {
    && IsRoot(root)
    && (forall n | n in files :: root + "/" <= n && n !in directories && files[n].File?)
    && IsClosure(root, files.Keys, directories)
  }

  /** A directory tree: proper relative names, and whatever has a path below it is a directory in the tree. */
  ghost predicate IsTree(tree: map<string, Entry>) {
    && (forall r | r in tree :: r != "" && r[0] != '/')
    && (forall r, a | r in tree && a != "" && a + "/" <= r :: a in tree && tree[a].Directory?)
  }

  ghost predicate AgreeAt(root: string, tree: map<string, Entry>, expected: map<string, Entry>, r: string) {
    (r in tree <==> Named(root, r) in expected) && (r in tree ==> tree[r] == expected[Named(root, r)])
  }

  ghost predicate Agree(root: string, tree: map<string, Entry>, expected: map<string, Entry>) {
    forall r :: AgreeAt(root, tree, expected, r)
  }

  /** Exactly the reviewed files are staged, with their modes and contents, and no directory lacks a file. */
  ghost predicate StagedExactly(root: string, tree: map<string, Entry>, files: map<string, Entry>) {
    && (forall r | r in tree && tree[r].File? :: Named(root, r) in files)
    && (forall r | Named(root, r) in files :: r in tree && tree[r] == files[Named(root, r)])
    && (forall r | r in tree && tree[r].Directory? :: exists f :: f in tree && tree[f].File? && r + "/" <= f)
  }

  lemma NamedUnderRoot(root: string, n: string) returns (r: string)
    requires root + "/" <= n
    ensures n == Named(root, r)
  {
    r := n[|root| + 1..];
    assert n == n[..|root| + 1] + r;
  }

  lemma NamedIsInjective(root: string, r: string, s: string)
    requires Named(root, r) == Named(root, s)
    ensures r == s
  {
    assert r == Named(root, r)[|root| + 1..] && s == Named(root, s)[|root| + 1..];
  }

  lemma NamesBelowRoot(root: string, r: string, f: string)
    requires IsRoot(root) && f != "" && f[0] != '/'
    ensures OnTheWay(root, Named(root, r), Named(root, f)) <==> r != "" && r + "/" <= f
  {
    var p := root + "/";
    assert Named(root, r) + "/" == p + (r + "/") && Named(root, f) == p + f;
    assert (p + f)[|p|..] == f && forall k | 0 <= k < |f| :: (p + f)[|p| + k] == f[k];
    if r == "" {
      assert (p + (r + "/"))[|p|] == '/';
    }
    if p + (r + "/") <= p + f {
      assert forall k | 0 <= k < |r + "/"| :: (p + (r + "/"))[|p| + k] == (r + "/")[k];
    }
  }

  lemma ExpectedDirectoryHasFile(root: string, files: map<string, Entry>, directories: set<string>, r: string)
    returns (f: string)
    requires Layout(root, files, directories) && Named(root, r) in directories
    requires forall g | Named(root, g) in files :: g != "" && g[0] != '/'
    ensures Named(root, f) in files && r != "" && r + "/" <= f
  {
    assert |Named(root, r)| > |root|;
    var n :| n in files && OnTheWay(root, Named(root, r), n);
    f := NamedUnderRoot(root, n);
    NamesBelowRoot(root, r, f);
  }

  lemma AgreementStagesExactly(root: string, tree: map<string, Entry>, files: map<string, Entry>,
                               directories: set<string>)
    requires Layout(root, files, directories) && IsTree(tree)
    requires Agree(root, tree, Expected(files, directories))
    ensures StagedExactly(root, tree, files)
  {
    var expected := Expected(files, directories);
    forall r | Named(root, r) in files
      ensures r in tree && tree[r] == files[Named(root, r)]
    {
      assert AgreeAt(root, tree, expected, r);
    }
    forall r | r in tree
      ensures tree[r].File? ==> Named(root, r) in files
      ensures tree[r].Directory? ==> exists f :: f in tree && tree[f].File? && r + "/" <= f
    {
      assert AgreeAt(root, tree, expected, r);
      if tree[r].Directory? {
        var f := ExpectedDirectoryHasFile(root, files, directories, r);
        assert f in tree && tree[f].File?;
      }
    }
  }

  lemma StagedDirectoryIsExpected(root: string, tree: map<string, Entry>, files: map<string, Entry>,
                                  directories: set<string>, r: string)
    requires Layout(root, files, directories) && IsTree(tree) && StagedExactly(root, tree, files)
    requires r in tree && tree[r].Directory?
    ensures Named(root, r) in directories
  {
    var f :| f in tree && tree[f].File? && r + "/" <= f;
    NamesBelowRoot(root, r, f);
    assert Named(root, f) in files.Keys && OnTheWay(root, Named(root, r), Named(root, f));
  }

  lemma ExpectedDirectoryIsStaged(root: string, tree: map<string, Entry>, files: map<string, Entry>,
                                  directories: set<string>, r: string)
    requires Layout(root, files, directories) && IsTree(tree) && StagedExactly(root, tree, files)
    requires Named(root, r) in directories
    ensures r in tree && tree[r].Directory?
  {
    assert forall g | Named(root, g) in files :: g in tree;
    var f := ExpectedDirectoryHasFile(root, files, directories, r);
    ParentIsStaged(tree, f, r);
  }

  lemma ParentIsStaged(tree: map<string, Entry>, f: string, r: string)
    requires IsTree(tree) && f in tree && r != "" && r + "/" <= f
    ensures r in tree && tree[r].Directory?
  {
  }

  lemma StagingExactlyAgrees(root: string, tree: map<string, Entry>, files: map<string, Entry>,
                             directories: set<string>)
    requires Layout(root, files, directories) && IsTree(tree)
    requires StagedExactly(root, tree, files)
    ensures Agree(root, tree, Expected(files, directories))
  {
    forall r
      ensures AgreeAt(root, tree, Expected(files, directories), r)
    {
      if Named(root, r) in directories {
        ExpectedDirectoryIsStaged(root, tree, files, directories, r);
      } else if r in tree && tree[r].Directory? {
        StagedDirectoryIsExpected(root, tree, files, directories, r);
      }
    }
  }

  lemma {:induction false} SortedUnderRoot(root: string, paths: seq<string>, names: seq<string>)
    requires Sorted(paths) && |names| == |paths|
    requires forall i | 0 <= i < |paths| :: names[i] == Named(root, paths[i])
    ensures Sorted(names)
  {
    forall i, j | 0 <= i < j < |names|
      ensures Less(names[i], names[j])
    {
      LessUnderPrefix(root + "/", paths[i], paths[j]);
    }
  }

  lemma AgreeingTreesNameAlike(root: string, tree: map<string, Entry>, expected: map<string, Entry>,
                               paths: seq<string>, names: seq<string>)
    requires Sorted(paths) && Sorted(names) && Agree(root, tree, expected)
    requires forall r :: r in paths <==> r in tree
    requires forall n :: n in names <==> n in expected && n != root
    requires forall n | n in names :: root + "/" <= n
    ensures |names| == |paths| && forall i | 0 <= i < |paths| :: names[i] == Named(root, paths[i])
  {
    var named := seq(|paths|, i requires 0 <= i < |paths| => Named(root, paths[i]));
    SortedUnderRoot(root, paths, named);
    forall n
      ensures n in named <==> n in names
    {
      if n in named {
        var i :| 0 <= i < |named| && named[i] == n;
        assert paths[i] in paths;
        assert AgreeAt(root, tree, expected, paths[i]);
        assert |n| > |root|;
      }
      if n in names {
        var r := NamedUnderRoot(root, n);
        assert AgreeAt(root, tree, expected, r);
        assert r in paths;
        var i :| 0 <= i < |paths| && paths[i] == r;
        assert named[i] == n;
      }
    }
    SortedIsUnique(named, names);
  }

  /** Same names in the same order, and the same entries, when the tree agrees with the expectation. */
  lemma AgreeingTreesListAlike(root: string, tree: map<string, Entry>, listing: seq<string>,
                               expected: map<string, Entry>, pending: seq<string>)
    requires Lists(listing, tree.Keys) && Lists(pending, expected.Keys - {root})
    requires root in expected && expected[root] == Directory
    requires forall n | n in pending :: root + "/" <= n
    requires Agree(root, tree, expected)
    ensures forall n | n in [root] + Sort(pending) :: n in expected
    ensures Created(root, tree, listing) == Members([root] + Sort(pending), expected)
  {
    SortSorts(listing);
    SortSorts(pending);
    var paths, names := Sort(listing), Sort(pending);
    assert forall r :: r in paths <==> r in tree;
    assert forall n :: n in names <==> n in expected && n != root;
    AgreeingTreesNameAlike(root, tree, expected, paths, names);
    var created, canonical := Created(root, tree, listing), Members([root] + names, expected);
    assert |created| == |canonical|;
    forall k | 0 <= k < |created|
      ensures created[k] == canonical[k]
    {
      if k > 0 {
        assert paths[k - 1] in paths;
        assert AgreeAt(root, tree, expected, paths[k - 1]);
        assert names[k - 1] == Named(root, paths[k - 1]);
      }
    }
  }

  lemma AlikeListsAgree(root: string, tree: map<string, Entry>, listing: seq<string>,
                        expected: map<string, Entry>, pending: seq<string>)
    requires Lists(listing, tree.Keys) && Lists(pending, expected.Keys - {root})
    requires expected.Keys >= {root}
    requires forall n | n in [root] + Sort(pending) :: n in expected
    requires Created(root, tree, listing) == Members([root] + Sort(pending), expected)
    ensures Agree(root, tree, expected)
  {
    SortSorts(listing);
    SortSorts(pending);
    var paths, names := Sort(listing), Sort(pending);
    assert |paths| == |names|;
    forall r
      ensures AgreeAt(root, tree, expected, r)
    {
      if r in tree {
        assert r in paths;
        var i :| 0 <= i < |paths| && paths[i] == r;
        assert Created(root, tree, listing)[i + 1] == Members([root] + names, expected)[i + 1];
      } else if Named(root, r) in expected {
        assert |Named(root, r)| > |root|;
        assert Named(root, r) in names;
        var i :| 0 <= i < |names| && names[i] == Named(root, r);
        assert paths[i] in paths;
        assert Created(root, tree, listing)[i + 1] == Members([root] + names, expected)[i + 1];
        NamedIsInjective(root, r, paths[i]);
      }
    }
  }

  /** The release archive's member list is the reviewed one exactly when the reviewed tree is what was staged. */
  lemma CreatorMatchesVerifierIff(root: string, tree: map<string, Entry>, listing: seq<string>,
                                  files: map<string, Entry>, directories: set<string>, pending: seq<string>)
    requires Layout(root, files, directories) && IsTree(tree)
    requires Lists(listing, tree.Keys) && Lists(pending, (directories - {root}) + files.Keys)
    ensures forall n | n in [root] + Sort(pending) :: n in Expected(files, directories)
    ensures Created(root, tree, listing) == Members([root] + Sort(pending), Expected(files, directories))
            <==> StagedExactly(root, tree, files)
  {
    var expected := Expected(files, directories);
    SortSorts(pending);
    assert root !in files;
    assert (directories - {root}) + files.Keys == expected.Keys - {root};
    forall n | n in pending
      ensures root + "/" <= n
    {
      assert n in files || OnTheWay(root, n, n) || n in directories - {root};
    }
    if StagedExactly(root, tree, files) {
      StagingExactlyAgrees(root, tree, files, directories);
      AgreeingTreesListAlike(root, tree, listing, expected, pending);
    }
    if Created(root, tree, listing) == Members([root] + Sort(pending), expected) {
      AlikeListsAgree(root, tree, listing, expected, pending);
      AgreementStagesExactly(root, tree, files, directories);
    }
  }

  /** A directory always precedes what it holds, so extraction never needs a parent it has not made. */
  lemma DirectoriesComeFirst(root: string, tree: map<string, Entry>, listing: seq<string>, i: nat, j: nat)
    requires Lists(listing, tree.Keys)
    requires i < |Created(root, tree, listing)| && j < |Created(root, tree, listing)|
    requires Created(root, tree, listing)[i].name + "/" <= Created(root, tree, listing)[j].name
    ensures i < j
  {
    SortSorts(listing);
    var paths := Sort(listing);
    var names := seq(|paths|, k requires 0 <= k < |paths| => Named(root, paths[k]));
    SortedUnderRoot(root, paths, names);
    assert forall k | 0 <= k < |Created(root, tree, listing)| ::
        Created(root, tree, listing)[k].name == ([root] + names)[k];
    ParentPrecedes(root, names, i, j);
  }

  lemma ParentPrecedes(root: string, names: seq<string>, i: nat, j: nat)
    requires Sorted(names) && forall n | n in names :: root + "/" <= n
    requires i <= |names| && j <= |names| && ([root] + names)[i] + "/" <= ([root] + names)[j]
    ensures i < j
  {
    var a, b := ([root] + names)[i], ([root] + names)[j];
    assert b == a + b[|a|..];
    PrefixIsLess(a, b[|a|..]);
    LessIsTotal(a, b);
    assert i > 0 ==> a in names;
  }
}
