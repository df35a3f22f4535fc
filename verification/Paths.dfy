/** Path validation of worker/path.go over an arbitrary static file system, on Unix path strings. */
module Paths {
  import opened Basics

  // ---- path/filepath, for absolute paths ----

  predicate IsAbs(s: string) {
    s != "" && s[0] == '/'
  }

  /** One step of `Elements`: the character `x` in front of the elements `es`. */
  function Push(x: char, es: seq<string>): seq<string>
    requires es != []
  {
    if x == '/' then [""] + es else [[x] + es[0]] + es[1..]
  }

  /** The elements between slashes. */
  function Elements(s: string): (es: seq<string>)
    ensures es != []
    ensures forall i :: 0 <= i < |es| ==> '/' !in es[i]
  {
    if s == "" then [""]
    else
      Push(s[0], Elements(s[1..]))
  }

  /** Drops empty and "." elements and lets ".." remove the element before it; at the root ".." is void. */
  function Normalize(es: seq<string>): seq<string> {
    if es == [] then []
    else
      var front, e := Normalize(es[..|es| - 1]), es[|es| - 1];
      if e == "" || e == "." then front
      else if e == ".." then (if front == [] then [] else front[..|front| - 1])
      else front + [e]
  }

  predicate IsComponent(e: string) {
    e != "" && e != "." && e != ".." && '/' !in e
  }

  predicate AreComponents(c: seq<string>) {
    forall i :: 0 <= i < |c| ==> IsComponent(c[i])
  }

  function Slashed(c: seq<string>): string {
    if c == [] then "" else Slashed(c[..|c| - 1]) + "/" + c[|c| - 1]
  }

  function Render(c: seq<string>): string {
    if c == [] then "/" else Slashed(c)
  }

  /** The components of an absolute path. */
  function Components(s: string): seq<string> {
    Normalize(Elements(s))
  }

  /** filepath.Clean on an absolute path. */
  function Clean(s: string): string
    requires IsAbs(s)
  {
    Render(Components(s))
  }

  /** filepath.Join(dir, rest) for an absolute `dir` and a nonempty `rest`. */
  function Join(dir: string, rest: string): string
    requires IsAbs(dir)
  {
    Clean(dir + "/" + rest)
  }

  /** One past the last slash. */
  function AfterLastSlash(s: string): (i: nat)
    ensures i <= |s|
    ensures i > 0 ==> s[i - 1] == '/'
    ensures forall k :: i <= k < |s| ==> s[k] != '/'
  {
    if s == "" || s[|s| - 1] == '/' then |s| else AfterLastSlash(s[..|s| - 1])
  }

  /** filepath.Dir on an absolute path. */
  function Dir(s: string): string
    requires IsAbs(s)
  {
    Clean(s[..AfterLastSlash(s)])
  }

  predicate IsClean(s: string) {
    IsAbs(s) && Clean(s) == s
  }

  // ---- worker/path.go ----

  /** `eval` is filepath.EvalSymlinks, `lstat` is os.Lstat, and `link` tells where a symbolic link leads, as an
      absolute path. */
  datatype Resolution = Resolved(path: string) | NotThere | EvalFails

  datatype Stat = Exists | Missing | StatFails

  datatype FileSystem =
    FileSystem(lstat: string -> Stat, eval: string -> Resolution, link: string -> Option<string>)

  datatype PathResult = Valid(path: string) | Traversal | Failed

  function IsUnderDir(parentDir: string, childPath: string): bool {
    var parentWithSep :=
      if parentDir != "" && parentDir[|parentDir| - 1] == '/' then parentDir else parentDir + "/";
    childPath == parentDir || parentWithSep <= childPath
  }

  /** The walk-up of validateNonExistentPath, with `current` given by its components. */
  function Walk(fs: FileSystem, realHome: string, current: seq<string>, target: string): PathResult {
    if Render(current) == realHome || current == [] then
      if IsUnderDir(realHome, target) then Valid(target) else Traversal
    else
      var up := current[..|current| - 1];
      match fs.lstat(Render(up))
      case Missing => Walk(fs, realHome, up, target)
      case StatFails => Failed
      case Exists =>
        match fs.eval(Render(up))
        case Resolved(dest) => if IsUnderDir(realHome, dest) then Valid(target) else Traversal
        case _ => Failed
  }

  method ValidateNonExistentPath(fs: FileSystem, realHome: string, target: string) returns (r: PathResult)
    requires IsClean(target)
    ensures r == Walk(fs, realHome, Components(target), target)
  {
    var current := target;
    ghost var c := Components(target);
    ComponentsAreComponents(target);
    while current != realHome && current != "/" && current != "."
      invariant AreComponents(c) && current == Render(c)
      invariant Walk(fs, realHome, c, target) == Walk(fs, realHome, Components(target), target)
      decreases |c|
    {
      RenderFacts(c);
      DirOfRender(c);
      var parent := Dir(current);
      ParentDiffers(c);
      if parent == current {
        break;
      }
      match fs.lstat(parent) {
        case Missing =>
          current := parent;
          c := c[..|c| - 1];
          continue;
        case StatFails => return Failed;
        case Exists =>
      }
      match fs.eval(parent) {
        case Resolved(dest) => return if IsUnderDir(realHome, dest) then Valid(target) else Traversal;
        case _ => return Failed;
      }
    }
    RenderFacts(c);
    return if IsUnderDir(realHome, target) then Valid(target) else Traversal;
  }

  /** The absolute path that is checked. */
  function Target(home: string, requested: string): string
    requires IsAbs(home)
  {
    if IsAbs(requested) then Clean(requested) else Join(home, requested)
  }

  /** `cwd` is the working directory that filepath.Abs starts from. */
  function AbsHome(cwd: string, homeDir: string): string
    requires IsAbs(cwd)
  {
    if IsAbs(homeDir) then Clean(homeDir) else Join(cwd, homeDir)
  }

  function ValidatePath(fs: FileSystem, cwd: string, homeDir: string, requested: string): PathResult
    requires IsAbs(cwd)
  {
    var home := AbsHome(cwd, homeDir);
    CleanIsClean(if IsAbs(homeDir) then homeDir else cwd + "/" + homeDir);
    match fs.eval(home)
    case NotThere => Failed
    case EvalFails => Failed
    case Resolved(realHome) =>
      if requested == "" then Valid(realHome)
      else
        var target := Target(home, requested);
        if !IsUnderDir(home, target) && !IsUnderDir(realHome, target) then Traversal
        else
          match fs.eval(target)
          case NotThere => Walk(fs, realHome, Components(target), target)
          case EvalFails => Failed
          case Resolved(dest) => if IsUnderDir(realHome, dest) then Valid(dest) else Traversal
  }

  // ---- lexical facts ----

  lemma {:induction false} NormalizeComponents(es: seq<string>)
    requires forall i :: 0 <= i < |es| ==> '/' !in es[i]
    ensures AreComponents(Normalize(es))
  {
    if es != [] {
      NormalizeComponents(es[..|es| - 1]);
    }
  }

  lemma ComponentsAreComponents(s: string)
    ensures AreComponents(Components(s))
  {
    NormalizeComponents(Elements(s));
  }

  lemma {:induction false} NormalizeKeeps(c: seq<string>)
    requires AreComponents(c)
    ensures Normalize(c) == c
  {
    if c != [] {
      NormalizeKeeps(c[..|c| - 1]);
      assert c == c[..|c| - 1] + [c[|c| - 1]];
    }
  }

  lemma {:induction false} NormalizeSkipsFirst(es: seq<string>)
    ensures Normalize([""] + es) == Normalize(es)
  {
    if es == [] {
      assert [""] + es == [""] && [""][..0] == [];
    } else {
      NormalizeSkipsFirst(es[..|es| - 1]);
      assert ([""] + es)[..|es|] == [""] + es[..|es| - 1];
    }
  }

  /** Concatenating around a slash concatenates the elements. */
  lemma {:induction false} ElementsOfJoin(a: string, b: string)
    ensures Elements(a + "/" + b) == Elements(a) + Elements(b)
  {
    if a == "" {
      DropOne("/", b);
      assert "/"[1..] + b == b;
      assert a + "/" == "/";
    } else {
      ElementsOfJoin(a[1..], b);
      DropOne(a + "/", b);
      DropOne(a, "/");
      DropOne(Elements(a[1..]), Elements(b));
      Prepended(a[0], Elements(a[1..]), Elements(b));
    }
  }

  lemma Prepended(x: char, a: seq<string>, b: seq<string>)
    requires a != []
    ensures Push(x, a + b) == Push(x, a) + b
  {
    DropOne(a, b);
    if x == '/' {
      Assoc([""], a, b);
    } else {
      Assoc([[x] + a[0]], a[1..], b);
    }
  }

  lemma {:induction false} ElementsOfPlain(e: string)
    requires '/' !in e
    ensures Elements(e) == [e]
  {
    if e != "" {
      ElementsOfPlain(e[1..]);
      assert [e[0]] + e[1..] == e;
    }
  }

  lemma {:induction false} ElementsOfSlashed(c: seq<string>)
    requires AreComponents(c)
    ensures Elements(Slashed(c)) == [""] + c
  {
    if c != [] {
      ElementsOfSlashed(c[..|c| - 1]);
      ElementsOfJoin(Slashed(c[..|c| - 1]), c[|c| - 1]);
      ElementsOfPlain(c[|c| - 1]);
      assert c == c[..|c| - 1] + [c[|c| - 1]];
    }
  }

  /** A rendered path is absolute and its components can be read back. */
  lemma ComponentsOfRender(c: seq<string>)
    requires AreComponents(c)
    ensures IsAbs(Render(c)) && Components(Render(c)) == c
  {
    RenderFacts(c);
    ElementsOfSlashed(c);
    NormalizeSkipsFirst(c);
    NormalizeKeeps(c);
    if c == [] {
      assert Elements("/") == ["", ""] by {
        assert "/"[1..] == "";
      }
      NormalizeSkipsFirst([""]);
      NormalizeSkipsFirst([]);
      assert [""] + [""] == ["", ""] && [""] + [] == [""];
    }
  }

  lemma {:induction false} SlashedStarts(c: seq<string>)
    requires c != []
    ensures Slashed(c) != "" && Slashed(c)[0] == '/'
  {
    if |c| > 1 {
      SlashedStarts(c[..|c| - 1]);
    } else {
      assert c[..0] == [];
    }
  }

  lemma RenderFacts(c: seq<string>)
    requires AreComponents(c)
    ensures Render(c) != "" && Render(c)[0] == '/'
    ensures Render(c) == "/" <==> c == []
  {
    if c != [] {
      SlashedStarts(c);
      assert IsComponent(c[|c| - 1]);
    }
  }

  lemma RenderInjective(a: seq<string>, b: seq<string>)
    requires AreComponents(a) && AreComponents(b) && Render(a) == Render(b)
    ensures a == b
  {
    ComponentsOfRender(a);
    ComponentsOfRender(b);
  }

  lemma ParentDiffers(c: seq<string>)
    requires AreComponents(c) && c != []
    ensures Render(c[..|c| - 1]) != Render(c)
  {
    assert AreComponents(c[..|c| - 1]);
    if Render(c[..|c| - 1]) == Render(c) {
      RenderInjective(c, c[..|c| - 1]);
      assert false;
    }
  }

  /** filepath.Clean is idempotent, and what it returns is absolute. */
  lemma CleanIsClean(s: string)
    requires IsAbs(s)
    ensures IsClean(Clean(s))
  {
    ComponentsAreComponents(s);
    ComponentsOfRender(Components(s));
  }

  lemma AfterLastSlashOf(a: string, e: string)
    requires '/' !in e
    ensures AfterLastSlash(a + "/" + e) == |a| + 1
  {
    var s := a + "/" + e;
    TakeDrop(a + "/", e);
    assert (a + "/")[|a|] == '/';
    forall k | |a| + 1 <= k < |s| ensures s[k] != '/' {
      assert s[k] == s[|a| + 1..][k - (|a| + 1)];
    }
    LastSlashUnique(s, |a| + 1);
  }

  lemma LastSlashUnique(s: string, i: nat)
    requires 0 < i <= |s| && s[i - 1] == '/'
    requires forall k :: i <= k < |s| ==> s[k] != '/'
    ensures AfterLastSlash(s) == i
  {
  }

  /** filepath.Dir drops the last component; the root is its own parent. */
  lemma DirOfRender(c: seq<string>)
    requires AreComponents(c)
    ensures IsAbs(Render(c)) && Dir(Render(c)) == Render(if c == [] then [] else c[..|c| - 1])
  {
    RenderFacts(c);
    if c == [] {
      assert AfterLastSlash("/") == 1 && "/"[..1] == "/";
      ComponentsOfRender([]);
    } else {
      var front := c[..|c| - 1];
      AfterLastSlashOf(Slashed(front), c[|c| - 1]);
      TakeDrop(Slashed(front) + "/", c[|c| - 1]);
      ComponentsOfSlashEnded(front);
    }
  }

  lemma ComponentsOfSlashEnded(c: seq<string>)
    requires AreComponents(c)
    ensures Components(Slashed(c) + "/") == c
  {
    var p := Slashed(c) + "/";
    assert p + "" == p;
    ElementsOfJoin(Slashed(c), "");
    ElementsOfSlashed(c);
    Assoc([""], c, [""]);
    NormalizeSkipsFirst(c + [""]);
    TakeDrop(c, [""]);
    NormalizeKeeps(c);
  }

  // ---- what a path denotes ----

  lemma {:induction false} NormalizeAppend(a: seq<string>, b: seq<string>)
    requires forall i :: 0 <= i < |a| ==> '/' !in a[i]
    requires forall i :: 0 <= i < |b| ==> '/' !in b[i]
    ensures Normalize(a + b) == Normalize(Normalize(a) + b)
    decreases |b|
  {
    if b == [] {
      NormalizeComponents(a);
      NormalizeKeeps(Normalize(a));
      assert a + b == a && Normalize(a) + b == Normalize(a);
    } else {
      var front, e := b[..|b| - 1], b[|b| - 1];
      NormalizeAppend(a, front);
      FrontLast(b);
      NormalizeSnoc(a + front, e);
      NormalizeSnoc(Normalize(a) + front, e);
      Assoc(a, front, [e]);
      Assoc(Normalize(a), front, [e]);
    }
  }

  lemma NormalizeSnoc(es: seq<string>, e: string)
    ensures Normalize(es + [e]) ==
      if e == "" || e == "." then Normalize(es)
      else if e == ".." then ParentOf(Normalize(es))
      else Normalize(es) + [e]
  {
    TakeDrop(es, [e]);
  }

  /** The directory above; the root is its own. */
  function ParentOf(c: seq<string>): seq<string> {
    if c == [] then [] else c[..|c| - 1]
  }

  lemma ComponentsOfJoin(a: string, b: string)
    ensures Components(a + "/" + b) == Normalize(Components(a) + Elements(b))
  {
    ElementsOfJoin(a, b);
    NormalizeAppend(Elements(a), Elements(b));
  }

  /** A component is appended to those of the path before it. */
  lemma ComponentsSnoc(a: string, e: string)
    requires '/' !in e
    ensures Components(a + "/" + e) ==
      if e == "" || e == "." then Components(a)
      else if e == ".." then ParentOf(Components(a))
      else Components(a) + [e]
  {
    ElementsOfJoin(a, e);
    ElementsOfPlain(e);
    NormalizeSnoc(Elements(a), e);
  }

  /** Of a path only its components matter for what comes behind it. */
  lemma ComponentsOfPrefix(a: string, a': string, b: string)
    requires Components(a) == Components(a')
    ensures Components(a + "/" + b) == Components(a' + "/" + b)
  {
    ComponentsOfJoin(a, b);
    ComponentsOfJoin(a', b);
  }

  /** ".." drops the component before it, "." and a second slash do nothing, wherever they stand. */
  lemma DotsInside(a: string, b: string)
    ensures Components(a + "/../" + b) == Components(Render(ParentOf(Components(a))) + "/" + b)
    ensures Components(a + "/./" + b) == Components(a + "/" + b)
    ensures Components(a + "//" + b) == Components(a + "/" + b)
  {
    ParentInside(a, b);
    NothingInside(a, ".", b);
    NothingInside(a, "", b);
    assert "/" + ".." + "/" == "/../" && "/" + "." + "/" == "/./" && "/" + "" + "/" == "//";
  }

  lemma ParentInside(a: string, b: string)
    ensures Components(a + ("/" + ".." + "/") + b) == Components(Render(ParentOf(Components(a))) + "/" + b)
  {
    ComponentsAreComponents(a);
    ComponentsOfRender(ParentOf(Components(a)));
    ComponentsSnoc(a, "..");
    InsideIsPrefix(a, "..", Render(ParentOf(Components(a))), b);
  }

  lemma NothingInside(a: string, e: string, b: string)
    requires e == "" || e == "."
    ensures Components(a + ("/" + e + "/") + b) == Components(a + "/" + b)
  {
    ComponentsSnoc(a, e);
    InsideIsPrefix(a, e, a, b);
  }

  lemma InsideIsPrefix(a: string, e: string, a': string, b: string)
    requires Components(a + "/" + e) == Components(a')
    ensures Components(a + ("/" + e + "/") + b) == Components(a' + "/" + b)
  {
    ComponentsOfPrefix(a + "/" + e, a', b);
    SlashesAround(a, e, b);
  }

  lemma SlashesAround(a: string, e: string, b: string)
    ensures a + ("/" + e + "/") + b == a + "/" + e + "/" + b
  {
    Assoc(a, "/", e);
    Assoc(a, "/" + e, "/");
  }

  /** The path that a request denotes: an absolute one itself, whatever the home, and any other one below the
      home. */
  lemma TargetDenotes(home: string, requested: string)
    requires IsAbs(home)
    ensures IsClean(Target(home, requested))
    ensures IsAbs(requested) ==> Components(Target(home, requested)) == Components(requested)
    ensures !IsAbs(requested) ==> Components(Target(home, requested)) == Components(home + "/" + requested)
  {
    var p := if IsAbs(requested) then requested else home + "/" + requested;
    CleanIsClean(p);
    ComponentsAreComponents(p);
    ComponentsOfRender(Components(p));
  }

  /** And so for the home, which may be relative to the working directory. */
  lemma AbsHomeDenotes(cwd: string, homeDir: string)
    requires IsAbs(cwd)
    ensures IsClean(AbsHome(cwd, homeDir))
    ensures IsAbs(homeDir) ==> Components(AbsHome(cwd, homeDir)) == Components(homeDir)
    ensures !IsAbs(homeDir) ==> Components(AbsHome(cwd, homeDir)) == Components(cwd + "/" + homeDir)
  {
    var p := if IsAbs(homeDir) then homeDir else cwd + "/" + homeDir;
    CleanIsClean(p);
    ComponentsAreComponents(p);
    ComponentsOfRender(Components(p));
  }

  /** Components with slashes in between. */
  function Slashless(c: seq<string>): string {
    if |c| <= 1 then (if c == [] then "" else c[0]) else Slashless(c[..|c| - 1]) + "/" + c[|c| - 1]
  }

  lemma {:induction false} BelowHome(home: string, c: seq<string>)
    requires AreComponents(c) && c != []
    ensures Components(home + "/" + Slashless(c)) == Components(home) + c
    ensures !IsAbs(Slashless(c)) && Slashless(c) != ""
    decreases |c|
  {
    var front, e := c[..|c| - 1], c[|c| - 1];
    FrontLast(c);
    assert IsComponent(e);
    if front == [] {
      assert c == [e];
      ComponentsSnoc(home, e);
    } else {
      BelowHome(home, front);
      ComponentsSnoc(home + "/" + Slashless(front), e);
      assert home + "/" + Slashless(c) == home + "/" + Slashless(front) + "/" + e;
      Assoc(Components(home), front, [e]);
    }
  }

  /** A relative request of plain components lies below the home by exactly these. */
  lemma TargetOfComponents(h: seq<string>, c: seq<string>)
    requires AreComponents(h) && AreComponents(c) && c != []
    ensures IsAbs(Render(h)) && Target(Render(h), Slashless(c)) == Render(h + c)
  {
    ComponentsOfRender(h);
    BelowHome(Render(h), c);
    TargetDenotes(Render(h), Slashless(c));
    CleanIsRendered(Target(Render(h), Slashless(c)));
  }

  lemma CleanIsRendered(p: string)
    requires IsClean(p)
    ensures p == Render(Components(p))
  {
  }

  /** "../name" lies beside the home. */
  lemma TargetOfSibling(h: seq<string>, name: string)
    requires AreComponents(h) && IsComponent(name)
    ensures IsAbs(Render(h)) && Target(Render(h), "../" + name) == Render(ParentOf(h) + [name])
  {
    ComponentsOfRender(h);
    ComponentsOfRender(ParentOf(h));
    DotsInside(Render(h), name);
    ComponentsSnoc(Render(ParentOf(h)), name);
    assert Render(h) + "/" + ("../" + name) == Render(h) + "/../" + name;
    assert ("../" + name)[0] == '.';
    TargetDenotes(Render(h), "../" + name);
    CleanIsRendered(Target(Render(h), "../" + name));
  }

  // ---- isUnderDir is the component-prefix test ----

  lemma {:induction false} SlashedAppend(a: seq<string>, b: seq<string>)
    ensures Slashed(a + b) == Slashed(a) + Slashed(b)
  {
    if b == [] {
      assert a + b == a;
    } else {
      SlashedAppend(a, b[..|b| - 1]);
      assert (a + b)[..|a + b| - 1] == a + b[..|b| - 1];
    }
  }

  lemma SlashedCons(c: seq<string>)
    requires c != []
    ensures Slashed(c) == "/" + c[0] + Slashed(c[1..])
  {
    SlashedAppend([c[0]], c[1..]);
    assert [c[0]] + c[1..] == c;
    assert [c[0]][..0] == [];
  }

  lemma {:induction false} SlashedPrefix(a: seq<string>, b: seq<string>)
    requires AreComponents(a) && AreComponents(b) && Slashed(a) + "/" <= Slashed(b)
    ensures a < b
  {
    if a == [] {
      assert b != [];
    } else {
      assert b != [];
      SlashedCons(a);
      SlashedCons(b);
      var x, y := a[0], b[0];
      var l, r := Slashed(a) + "/", Slashed(b);
      var ra, rb := Slashed(a[1..]) + "/", Slashed(b[1..]);
      assert l == "/" + x + ra && r == "/" + y + rb;
      if a[1..] != [] { SlashedStarts(a[1..]); }
      if b[1..] != [] { SlashedStarts(b[1..]); }
      FirstComponent(x, ra, y, rb);
      assert l[1 + |x|..] == ra && r[1 + |x|..] == rb;
      SlashedPrefix(a[1..], b[1..]);
      assert a == [x] + a[1..] && b == [x] + b[1..];
    }
  }

  /** Up to the next slash, a path that is a prefix of another has the same component. */
  lemma FirstComponent(x: string, ra: string, y: string, rb: string)
    requires IsComponent(x) && IsComponent(y)
    requires ra != "" && ra[0] == '/' && (rb == "" || rb[0] == '/')
    requires "/" + x + ra <= "/" + y + rb
    ensures x == y
  {
    var l, r := "/" + x + ra, "/" + y + rb;
    assert forall k :: 0 <= k < |x| ==> l[1 + k] == x[k];
    assert forall k :: 0 <= k < |y| ==> r[1 + k] == y[k];
    assert l[1 + |x|] == '/';
    assert rb != "" ==> r[1 + |y|] == '/';
    assert |x| == |y|;
  }

  /** On cleaned absolute paths the string test holds exactly when the components of the parent are a
      prefix of those of the child; so "/home/user2" is not under "/home/user", and everything is under
      the root. */
  lemma IsUnderDirIsPrefix(a: seq<string>, b: seq<string>)
    requires AreComponents(a) && AreComponents(b)
    ensures IsUnderDir(Render(a), Render(b)) <==> a <= b
  {
    RenderFacts(a);
    RenderFacts(b);
    if a != [] {
      SeparatorAdded(a);
      if a <= b {
        if |a| < |b| {
          SlashedExtends(a, b);
        } else {
          assert a == b;
        }
      }
      if b == [] {
        SlashedStarts(a);
        assert |Slashed(a) + "/"| > |Render(b)|;
      } else if Slashed(a) + "/" <= Slashed(b) {
        SlashedPrefix(a, b);
      }
      if Render(a) == Render(b) {
        RenderInjective(a, b);
      }
    }
  }

  lemma SlashedExtends(a: seq<string>, b: seq<string>)
    requires a < b
    ensures Slashed(a) + "/" <= Slashed(b)
  {
    SlashedAppend(a, b[|a|..]);
    assert a + b[|a|..] == b;
    SlashedStarts(b[|a|..]);
  }

  /** The same for cleaned strings. */
  lemma UnderIffPrefix(parent: string, child: string)
    requires IsClean(parent) && IsClean(child)
    ensures IsUnderDir(parent, child) <==> Components(parent) <= Components(child)
  {
    ComponentsAreComponents(parent);
    ComponentsAreComponents(child);
    IsUnderDirIsPrefix(Components(parent), Components(child));
  }

  lemma SeparatorAdded(a: seq<string>)
    requires AreComponents(a) && a != []
    ensures Render(a)[|Render(a)| - 1] != '/'
  {
    var e := a[|a| - 1];
    assert IsComponent(e);
    assert Render(a)[|Render(a)| - 1] == e[|e| - 1];
  }

  // ---- the walk-up ----

  /** `k` components are the longest proper prefix of `c` that os.Lstat finds, or fails on. */
  predicate IsNearest(fs: FileSystem, c: seq<string>, k: nat) {
    && k < |c|
    && !fs.lstat(Render(c[..k])).Missing?
    && forall j :: k < j < |c| ==> fs.lstat(Render(c[..j])).Missing?
  }

  lemma {:induction false} WalkStopsAtNearest(fs: FileSystem, home: seq<string>, c: seq<string>, k: nat, target: string)
    requires AreComponents(home) && AreComponents(c)
    requires IsNearest(fs, c, k) && fs.lstat(Render(home)).Exists? && c != home
    ensures Walk(fs, Render(home), c, target) ==
      if fs.lstat(Render(c[..k])).StatFails? then Failed
      else match fs.eval(Render(c[..k]))
        case Resolved(dest) => if IsUnderDir(Render(home), dest) then Valid(target) else Traversal
        case _ => Failed
    decreases |c|
  {
    if Render(c) == Render(home) {
      RenderInjective(c, home);
    }
    var up := c[..|c| - 1];
    if k < |c| - 1 {
      assert fs.lstat(Render(up)).Missing?;
      forall j | 0 <= j < |up| ensures up[..j] == c[..j] {}
      WalkStopsAtNearest(fs, home, up, k, target);
    }
  }

  /** Where the home exists, a path that does not exist is accepted, unchanged, exactly when its nearest
      existing strict ancestor resolves to a path under the real home. */
  lemma NonExistentAcceptedIff(fs: FileSystem, realHome: string, target: string, k: nat)
    requires IsClean(realHome) && IsClean(target) && target != realHome
    requires fs.lstat(realHome).Exists? && IsNearest(fs, Components(target), k)
    requires forall p, dest :: fs.eval(p) == Resolved(dest) ==> IsClean(dest)
    ensures var ancestor := Render(Components(target)[..k]);
      var r := Walk(fs, realHome, Components(target), target);
      && (r.Valid? <==>
            && fs.lstat(ancestor).Exists? && fs.eval(ancestor).Resolved?
            && Components(realHome) <= Components(fs.eval(ancestor).path))
      && (r.Traversal? <==>
            && fs.lstat(ancestor).Exists? && fs.eval(ancestor).Resolved?
            && !(Components(realHome) <= Components(fs.eval(ancestor).path)))
      && (r.Valid? ==> r.path == target)
  {
    ComponentsAreComponents(realHome);
    ComponentsAreComponents(target);
    var ancestor := Render(Components(target)[..k]);
    WalkStopsAtNearest(fs, Components(realHome), Components(target), k, target);
    if fs.eval(ancestor).Resolved? {
      UnderIffPrefix(realHome, fs.eval(ancestor).path);
    }
  }

  /** The nearest strict ancestor that exists, if the root does. */
  function Nearest(fs: FileSystem, c: seq<string>): (k: nat)
    requires c != []
    ensures k < |c|
    ensures !fs.lstat("/").Missing? ==> IsNearest(fs, c, k)
  {
    var up := c[..|c| - 1];
    if |c| == 1 || !fs.lstat(Render(up)).Missing? then
      assert |c| == 1 ==> Render(up) == "/";
      |up|
    else
      assert forall j :: 0 <= j <= |up| ==> up[..j] == c[..j];
      Nearest(fs, up)
  }

  // ---- ValidatePath ----

  /** The contract of filepath.EvalSymlinks: the result is clean and absolute, and resolves to itself. */
  predicate EvalContract(fs: FileSystem, p: string) {
    fs.eval(p).Resolved? ==> IsClean(fs.eval(p).path) && fs.eval(fs.eval(p).path) == fs.eval(p)
  }

  /** What a file system promises about a path: what resolves exists; a link resolves as what it leads to; and
      where there is nothing to resolve there is nothing, or a link. */
  predicate FsContract(fs: FileSystem, p: string) {
    && EvalContract(fs, p)
    && (fs.eval(p).Resolved? ==> fs.lstat(p).Exists?)
    && (fs.link(p).Some? ==>
          fs.lstat(p).Exists? && IsClean(fs.link(p).value) && fs.eval(p) == fs.eval(fs.link(p).value))
    && (fs.eval(p).NotThere? && fs.link(p).None? ==> fs.lstat(p).Missing?)
  }

  /** A path is resolved through its directory. */
  predicate ParentContract(fs: FileSystem, c: seq<string>) {
    c != [] && fs.eval(Render(c[..|c| - 1])).Resolved? ==>
      fs.eval(Render(c)) == fs.eval(Render(Components(fs.eval(Render(c[..|c| - 1])).path) + [c[|c| - 1]]))
  }

  ghost predicate FsOk(fs: FileSystem) {
    && fs.eval("/") == Resolved("/")
    && (forall p :: FsContract(fs, p))
    && forall c :: AreComponents(c) ==> ParentContract(fs, c)
  }

  lemma TargetIsClean(home: string, requested: string)
    requires IsAbs(home) && requested != ""
    ensures IsClean(Target(home, requested))
  {
    CleanIsClean(if IsAbs(requested) then requested else home + "/" + requested);
  }

  lemma {:induction false} WalkReturnsTarget(fs: FileSystem, realHome: string, c: seq<string>, target: string)
    ensures Walk(fs, realHome, c, target).Valid? ==> Walk(fs, realHome, c, target).path == target
    decreases |c|
  {
    if c != [] {
      WalkReturnsTarget(fs, realHome, c[..|c| - 1], target);
    }
  }

  /** An accepted path is clean, absolute and lexically under the home or the real home; validating it
      again returns it unchanged, whether it exists or not. */
  lemma ValidatePathIdempotent(fs: FileSystem, cwd: string, homeDir: string, requested: string)
    requires IsAbs(cwd) && ValidatePath(fs, cwd, homeDir, requested).Valid?
    requires forall p :: EvalContract(fs, p)
    ensures var home := AbsHome(cwd, homeDir);
      var r := ValidatePath(fs, cwd, homeDir, requested).path;
      && ValidatePath(fs, cwd, homeDir, r) == Valid(r)
      && IsClean(r) && fs.eval(home).Resolved?
      && (Components(home) <= Components(r) || Components(fs.eval(home).path) <= Components(r))
  {
    var home := AbsHome(cwd, homeDir);
    CleanIsClean(if IsAbs(homeDir) then homeDir else cwd + "/" + homeDir);
    assert EvalContract(fs, home);
    var realHome := fs.eval(home).path;
    var r := ValidatePath(fs, cwd, homeDir, requested).path;
    if requested != "" {
      TargetIsClean(home, requested);
      var target := Target(home, requested);
      assert EvalContract(fs, target);
      WalkReturnsTarget(fs, realHome, Components(target), target);
    }
    assert IsClean(r);
    assert IsUnderDir(home, r) || IsUnderDir(realHome, r);
    UnderIffPrefix(home, r);
    UnderIffPrefix(realHome, r);
  }

  /** The verdict on a path that exists: accepted exactly when it lies lexically under the home (or real
      home) and resolves under the real home; the answer is the resolved path. */
  lemma ExistingAcceptedIff(fs: FileSystem, cwd: string, homeDir: string, requested: string, dest: string)
    requires IsAbs(cwd) && requested != "" && fs.eval(AbsHome(cwd, homeDir)).Resolved?
    requires forall p :: EvalContract(fs, p)
    requires IsAbs(AbsHome(cwd, homeDir)) && fs.eval(Target(AbsHome(cwd, homeDir), requested)) == Resolved(dest)
    ensures var home := AbsHome(cwd, homeDir);
      var target, realHome := Target(home, requested), fs.eval(home).path;
      ValidatePath(fs, cwd, homeDir, requested) ==
        if (Components(home) <= Components(target) || Components(realHome) <= Components(target))
           && Components(realHome) <= Components(dest)
        then Valid(dest) else Traversal
  {
    var home := AbsHome(cwd, homeDir);
    CleanIsClean(if IsAbs(homeDir) then homeDir else cwd + "/" + homeDir);
    TargetIsClean(home, requested);
    var target, realHome := Target(home, requested), fs.eval(home).path;
    assert EvalContract(fs, home) && EvalContract(fs, target);
    UnderIffPrefix(home, target);
    UnderIffPrefix(realHome, target);
    UnderIffPrefix(realHome, dest);
  }

  /** The verdict on a path that does not exist yet: accepted, unchanged, exactly when it lies lexically
      under the home (or real home) and its nearest existing strict ancestor resolves under the real
      home. */
  lemma NewPathAcceptedIff(fs: FileSystem, cwd: string, homeDir: string, requested: string)
    requires IsAbs(cwd) && requested != "" && FsOk(fs) && fs.eval(AbsHome(cwd, homeDir)).Resolved?
    requires IsAbs(AbsHome(cwd, homeDir)) && fs.eval(Target(AbsHome(cwd, homeDir), requested)).NotThere?
    ensures var home := AbsHome(cwd, homeDir);
      var target, realHome := Target(home, requested), fs.eval(home).path;
      && Components(target) != []
      && var ancestor := Render(Components(target)[..Nearest(fs, Components(target))]);
         var r := ValidatePath(fs, cwd, homeDir, requested);
         && (r.Valid? <==>
               && (Components(home) <= Components(target) || Components(realHome) <= Components(target))
               && fs.lstat(ancestor).Exists? && fs.eval(ancestor).Resolved?
               && Components(realHome) <= Components(fs.eval(ancestor).path))
         && (r.Failed? <==>
               && (Components(home) <= Components(target) || Components(realHome) <= Components(target))
               && !(fs.lstat(ancestor).Exists? && fs.eval(ancestor).Resolved?))
         && (r.Valid? ==> r.path == target)
  {
    var home := AbsHome(cwd, homeDir);
    CleanIsClean(if IsAbs(homeDir) then homeDir else cwd + "/" + homeDir);
    TargetIsClean(home, requested);
    var target, realHome := Target(home, requested), fs.eval(home).path;
    assert FsContract(fs, home) && FsContract(fs, realHome);
    NewTarget(fs, realHome, target);
    UnderIffPrefix(home, target);
    UnderIffPrefix(realHome, target);
    NonExistentAcceptedIff(fs, realHome, target, Nearest(fs, Components(target)));
  }

  /** The other verdicts: no home, no path, a path that is not under the home by its name, and one that cannot be
      resolved. */
  lemma OtherVerdicts(fs: FileSystem, cwd: string, homeDir: string, requested: string)
    requires IsAbs(cwd) && forall p :: EvalContract(fs, p)
    ensures IsAbs(AbsHome(cwd, homeDir))
    ensures var home := AbsHome(cwd, homeDir);
      var r := ValidatePath(fs, cwd, homeDir, requested);
      && (!fs.eval(home).Resolved? ==> r == Failed)
      && (fs.eval(home).Resolved? && requested == "" ==> r == Valid(fs.eval(home).path))
      && (fs.eval(home).Resolved? && requested != "" ==>
            var target, realHome := Target(home, requested), fs.eval(home).path;
            var under := Components(home) <= Components(target) || Components(realHome) <= Components(target);
            && (!under ==> r == Traversal)
            && (under && fs.eval(target).EvalFails? ==> r == Failed))
  {
    var home := AbsHome(cwd, homeDir);
    AbsHomeDenotes(cwd, homeDir);
    assert EvalContract(fs, home);
    if fs.eval(home).Resolved? && requested != "" {
      TargetDenotes(home, requested);
      UnderIffPrefix(home, Target(home, requested));
      UnderIffPrefix(fs.eval(home).path, Target(home, requested));
    }
  }

  /** The verdict on a name in a home `h` that resolves to `rh`: accepted if nothing is there yet, and otherwise
      exactly if it resolves under `rh`. */
  lemma VerdictOnName(fs: FileSystem, cwd: string, h: seq<string>, rh: seq<string>, name: string)
    requires FsOk(fs) && IsAbs(cwd) && AreComponents(h) && AreComponents(rh) && IsComponent(name)
    requires fs.eval(Render(h)) == Resolved(Render(rh))
    ensures var r, target := ValidatePath(fs, cwd, Render(h), name), Render(h + [name]);
      match fs.eval(target)
      case Resolved(dest) => r == if rh <= Components(dest) then Valid(dest) else Traversal
      case NotThere => r == Valid(target)
      case EvalFails => r == Failed
  {
    HomeIs(fs, cwd, h, rh);
    assert Slashless([name]) == name;
    TargetOfComponents(h, [name]);
    ComponentsOfRender(h + [name]);
    if fs.eval(Render(h + [name])).Resolved? {
      ExistingAcceptedIff(fs, cwd, Render(h), name, fs.eval(Render(h + [name])).path);
    } else if fs.eval(Render(h + [name])).NotThere? {
      NearestIsHome(fs, h, name);
      NewPathAcceptedIff(fs, cwd, Render(h), name);
    } else {
      OtherVerdicts(fs, cwd, Render(h), name);
    }
  }

  lemma HomeIs(fs: FileSystem, cwd: string, h: seq<string>, rh: seq<string>)
    requires FsOk(fs) && IsAbs(cwd) && AreComponents(h) && AreComponents(rh)
    ensures IsAbs(Render(h)) && AbsHome(cwd, Render(h)) == Render(h)
    ensures Components(Render(h)) == h && Components(Render(rh)) == rh
    ensures forall p :: EvalContract(fs, p)
  {
    ComponentsOfRender(h);
    ComponentsOfRender(rh);
    forall p ensures EvalContract(fs, p) {
      assert FsContract(fs, p);
    }
  }

  lemma NearestIsHome(fs: FileSystem, h: seq<string>, name: string)
    requires FsOk(fs) && fs.eval(Render(h)).Resolved?
    ensures (h + [name])[..Nearest(fs, h + [name])] == h && fs.lstat(Render(h)).Exists?
  {
    TakeDrop(h, [name]);
    assert FsContract(fs, Render(h));
  }

  /** The verdict on a sibling of the home: its path must be under the real home by its name, or be the home
      itself; and then it must resolve there as well. */
  lemma VerdictOnSibling(fs: FileSystem, cwd: string, h: seq<string>, rh: seq<string>, name: string)
    requires FsOk(fs) && IsAbs(cwd) && AreComponents(h) && AreComponents(rh) && IsComponent(name)
    requires fs.eval(Render(h)) == Resolved(Render(rh))
    ensures var r, c := ValidatePath(fs, cwd, Render(h), "../" + name), ParentOf(h) + [name];
      if h != [] && name != h[|h| - 1] && !(rh <= c) then r == Traversal
      else
        match fs.eval(Render(c))
        case Resolved(dest) => r == if rh <= Components(dest) then Valid(dest) else Traversal
        case NotThere => r.Valid? ==> r.path == Render(c)
        case EvalFails => r == Failed
  {
    var c, requested := ParentOf(h) + [name], "../" + name;
    HomeIs(fs, cwd, h, rh);
    TargetOfSibling(h, name);
    ComponentsOfRender(c);
    SiblingUnderIff(h, name);
    OtherVerdicts(fs, cwd, Render(h), requested);
    if fs.eval(Render(c)).Resolved? {
      ExistingAcceptedIff(fs, cwd, Render(h), requested, fs.eval(Render(c)).path);
    } else if fs.eval(Render(c)).NotThere? {
      NewPathAcceptedIff(fs, cwd, Render(h), requested);
    }
  }

  lemma SiblingUnderIff(h: seq<string>, name: string)
    ensures h <= ParentOf(h) + [name] <==> h == [] || name == h[|h| - 1]
  {
    if h != [] {
      FrontLast(h);
    }
  }

  /** A path at which there is nothing to resolve is neither the root nor the home, and has an ancestor. */
  lemma NewTarget(fs: FileSystem, realHome: string, target: string)
    requires FsOk(fs) && IsClean(realHome) && IsClean(target)
    requires fs.eval(realHome) == Resolved(realHome) && fs.eval(target).NotThere?
    ensures target != realHome && fs.lstat(realHome).Exists? && Components(target) != []
    ensures IsNearest(fs, Components(target), Nearest(fs, Components(target)))
    ensures forall p, dest :: fs.eval(p) == Resolved(dest) ==> IsClean(dest)
  {
    assert FsContract(fs, realHome) && FsContract(fs, "/");
    forall p, dest | fs.eval(p) == Resolved(dest) ensures IsClean(dest) {
      assert FsContract(fs, p);
    }
  }

  // ---- where a file created at an accepted new path comes to lie ----

  /** The path at the end of the links that start at `p`. */
  function FollowLinks(fs: FileSystem, p: string, hops: nat): Option<string>
    decreases hops
  {
    if fs.link(p).None? then Some(p)
    else if hops == 0 then None
    else FollowLinks(fs, fs.link(p).value, hops - 1)
  }

  lemma {:induction false} EndOfLinks(fs: FileSystem, p: string, hops: nat)
    requires FsOk(fs) && IsClean(p) && fs.eval(p).NotThere? && FollowLinks(fs, p, hops).Some?
    ensures var end := FollowLinks(fs, p, hops).value;
      IsClean(end) && fs.link(end).None? && fs.eval(end).NotThere?
    decreases hops
  {
    assert FsContract(fs, p);
    if fs.link(p).Some? {
      EndOfLinks(fs, fs.link(p).value, hops - 1);
    }
  }

  /** A file made at `c`, below the existing directory of the first `k` components. */
  function MadeBelow(fs: FileSystem, c: seq<string>, k: nat): Option<string>
    requires k <= |c|
  {
    match fs.eval(Render(c[..k]))
    case Resolved(dir) => Some(Render(Components(dir) + c[k..]))
    case _ => None
  }

  /** The place of a file created at `target`: missing directories of the target are made first, those at the
      end of a link are not. `None` if there is no such place. */
  function Landing(fs: FileSystem, target: string, hops: nat): Option<string> {
    var end := FollowLinks(fs, target, hops);
    if end.None? || Components(end.value) == [] then None
    else
      var c := Components(end.value);
      MadeBelow(fs, c, if end.value == target then Nearest(fs, c) else |c| - 1)
  }

  predicate LandsUnder(realHome: string, place: Option<string>) {
    place.Some? && Components(realHome) <= Components(place.value)
  }

  /** The directory of `p` is there, and `p` would be accepted. */
  predicate AcceptedInPlace(fs: FileSystem, realHome: string, p: string) {
    var c := Components(p);
    c != [] && fs.eval(Render(c[..|c| - 1])).Resolved? && Walk(fs, realHome, c, p).Valid?
  }

  /** A new path that is accepted comes to lie under the real home exactly if no link is there, or what the
      link leads to, in an existing directory, would be accepted as well. */
  lemma NewPathLandsUnderHomeIff(fs: FileSystem, realHome: string, target: string, hops: nat)
    requires FsOk(fs) && IsClean(realHome) && IsClean(target)
    requires fs.eval(realHome) == Resolved(realHome) && fs.eval(target).NotThere?
    requires Walk(fs, realHome, Components(target), target).Valid? && FollowLinks(fs, target, hops).Some?
    ensures LandsUnder(realHome, Landing(fs, target, hops)) <==>
      fs.link(target).None? || AcceptedInPlace(fs, realHome, FollowLinks(fs, target, hops).value)
  {
    if fs.link(target).None? {
      TargetLands(fs, realHome, target);
    } else {
      LinkedLands(fs, realHome, target, hops);
    }
  }

  lemma LinkedLands(fs: FileSystem, realHome: string, target: string, hops: nat)
    requires FsOk(fs) && IsClean(realHome) && IsClean(target) && fs.link(target).Some?
    requires fs.eval(realHome) == Resolved(realHome) && fs.eval(target).NotThere?
    requires FollowLinks(fs, target, hops).Some?
    ensures LandsUnder(realHome, Landing(fs, target, hops)) <==>
      AcceptedInPlace(fs, realHome, FollowLinks(fs, target, hops).value)
  {
    EndOfLinks(fs, target, hops);
    var end := FollowLinks(fs, target, hops).value;
    assert end != target;
    LinkEndLands(fs, realHome, end);
  }

  lemma TargetLands(fs: FileSystem, realHome: string, target: string)
    requires FsOk(fs) && IsClean(realHome) && IsClean(target)
    requires fs.eval(realHome) == Resolved(realHome) && fs.eval(target).NotThere?
    requires Walk(fs, realHome, Components(target), target).Valid?
    ensures Components(target) != []
    ensures LandsUnder(realHome, MadeBelow(fs, Components(target), Nearest(fs, Components(target))))
  {
    NewTarget(fs, realHome, target);
    var c := Components(target);
    var k := Nearest(fs, c);
    NonExistentAcceptedIff(fs, realHome, target, k);
    var dir := fs.eval(Render(c[..k])).path;
    ComponentsAreComponents(target);
    ComponentsAreComponents(dir);
    ComponentsOfRender(Components(dir) + c[k..]);
  }

  lemma LinkEndLands(fs: FileSystem, realHome: string, end: string)
    requires FsOk(fs) && IsClean(realHome) && IsClean(end)
    requires fs.eval(realHome) == Resolved(realHome) && fs.eval(end).NotThere?
    ensures Components(end) != []
    ensures var c := Components(end);
      LandsUnder(realHome, MadeBelow(fs, c, |c| - 1)) <==> AcceptedInPlace(fs, realHome, end)
  {
    NewTarget(fs, realHome, end);
    var c := Components(end);
    var up := Render(c[..|c| - 1]);
    if fs.eval(up).Resolved? {
      assert FsContract(fs, up);
      assert IsNearest(fs, c, |c| - 1);
      NonExistentAcceptedIff(fs, realHome, end, |c| - 1);
      PlaceUnderIff(fs, realHome, end);
    }
  }

  /** Where nothing resolves, a place made in an existing directory is under the real home as its directory
      is. */
  lemma PlaceUnderIff(fs: FileSystem, realHome: string, end: string)
    requires FsOk(fs) && IsClean(realHome) && IsClean(end) && Components(end) != []
    requires fs.eval(realHome) == Resolved(realHome) && fs.eval(end).NotThere?
    requires fs.eval(Render(Components(end)[..|Components(end)| - 1])).Resolved?
    ensures var c := Components(end);
      var dir := fs.eval(Render(c[..|c| - 1])).path;
      LandsUnder(realHome, MadeBelow(fs, c, |c| - 1)) <==> Components(realHome) <= Components(dir)
  {
    var c := Components(end);
    var x := c[|c| - 1];
    var dir := Components(fs.eval(Render(c[..|c| - 1])).path);
    ComponentsAreComponents(end);
    ComponentsAreComponents(fs.eval(Render(c[..|c| - 1])).path);
    LastOnly(c);
    ComponentsOfRender(dir + [x]);
    assert ParentContract(fs, c);
    PrefixOrAll(Components(realHome), dir, x);
  }

  lemma LastOnly(c: seq<string>)
    requires c != []
    ensures c[|c| - 1..] == [c[|c| - 1]]
  {
  }

  lemma PrefixOrAll(a: seq<string>, b: seq<string>, x: string)
    ensures a <= b + [x] <==> a <= b || a == b + [x]
  {
    if a <= b + [x] && |a| == |b| + 1 {
      assert a == (b + [x])[..|a|] == b + [x];
    }
  }

  /** A file system in which everything exists but what is at or below the paths `link` and `dest`; at `link`
      there is a link to `dest`. */
  function WithDanglingLink(link: seq<string>, dest: seq<string>): FileSystem {
    FileSystem(
      p => if !IsAbs(p) || dest <= Components(p) || link < Components(p) then Missing else Exists,
      p => if !IsAbs(p) || dest <= Components(p) || link <= Components(p) then NotThere else Resolved(Clean(p)),
      p => if IsAbs(p) && Components(p) == link then Some(Render(dest)) else None)
  }

  lemma DanglingLinkFsOk(link: seq<string>, dest: seq<string>)
    requires AreComponents(link) && AreComponents(dest) && !(link <= dest) && !(dest <= link)
    ensures FsOk(WithDanglingLink(link, dest))
  {
    var fs := WithDanglingLink(link, dest);
    ComponentsOfRender([]);
    ComponentsOfRender(dest);
    forall p ensures FsContract(fs, p) {
      if IsAbs(p) {
        ComponentsAreComponents(p);
        ComponentsOfRender(Components(p));
      }
    }
    forall c | AreComponents(c) ensures ParentContract(fs, c) {
      if c != [] {
        ComponentsOfRender(c[..|c| - 1]);
        FrontLast(c);
      }
    }
  }

  /** The condition can fail: a link in the home to a place outside is accepted, and that is where the file is
      made. */
  lemma DanglingLinkIsAccepted(home: seq<string>, name: string, dir: seq<string>, file: string)
    requires AreComponents(home) && IsComponent(name) && AreComponents(dir) && IsComponent(file)
    requires !(home <= dir) && !(dir + [file] <= home)
    ensures var fs, target := WithDanglingLink(home + [name], dir + [file]), Render(home + [name]);
      && FsOk(fs) && IsAbs(Render(home))
      && ValidatePath(fs, Render(home), Render(home), target) == Valid(target)
      && Landing(fs, target, 1) == Some(Render(dir + [file])) && !LandsUnder(Render(home), Landing(fs, target, 1))
  {
    PrefixOrAll(home + [name], dir, file);
    PrefixOrAll(dir + [file], home, name);
    DanglingLinkFsOk(home + [name], dir + [file]);
    ComponentsOfRender(home);
    ComponentsOfRender(dir + [file]);
    LinkIsAccepted(home, name, dir + [file]);
    LinkLandsAtItsEnd(home + [name], dir, file);
    PrefixOrAll(home, dir, file);
  }

  lemma LinkIsAccepted(home: seq<string>, name: string, dest: seq<string>)
    requires AreComponents(home) && IsComponent(name) && !(dest <= home)
    ensures IsAbs(Render(home))
    ensures var fs, target := WithDanglingLink(home + [name], dest), Render(home + [name]);
      ValidatePath(fs, Render(home), Render(home), target) == Valid(target)
  {
    var link := home + [name];
    ComponentsOfRender(home);
    ComponentsOfRender(link);
    TakeDrop(home, [name]);
    IsUnderDirIsPrefix(home, link);
    IsUnderDirIsPrefix(home, home);
    WalkOfLink(home, name, dest);
  }

  lemma WalkOfLink(home: seq<string>, name: string, dest: seq<string>)
    requires AreComponents(home) && IsComponent(name) && !(dest <= home)
    requires IsUnderDir(Render(home), Render(home))
    ensures var fs, target := WithDanglingLink(home + [name], dest), Render(home + [name]);
      IsUnderDir(Render(home), target) ==> Walk(fs, Render(home), home + [name], target) == Valid(target)
  {
    ComponentsOfRender(home);
    TakeDrop(home, [name]);
  }

  lemma LinkLandsAtItsEnd(link: seq<string>, dir: seq<string>, file: string)
    requires AreComponents(link) && AreComponents(dir) && IsComponent(file)
    requires link != dir + [file] && !(link <= dir)
    ensures Landing(WithDanglingLink(link, dir + [file]), Render(link), 1) == Some(Render(dir + [file]))
  {
    var dest := dir + [file];
    ComponentsOfRender(link);
    ComponentsOfRender(dest);
    ComponentsOfRender(dir);
    TakeDrop(dir, [file]);
    assert !(dest <= dir);
  }
}
