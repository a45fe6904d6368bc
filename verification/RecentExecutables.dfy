/** The recent-files list: at most 8 names, most recent first. It is the front
    of the list that never forgets. */
module RecentExecutables {

  const MAX_FILES: nat := 8

  datatype Executable = Executable(filename: string, kind: int)

  predicate Distinct(files: seq<Executable>) {
    forall i, j :: 0 <= i < j < |files| ==> files[i].filename != files[j].filename
  }

  // find_file_in_list
  function Find(files: seq<Executable>, name: string): (k: int)
    ensures -1 <= k < |files|
    ensures k >= 0 ==> files[k].filename == name && forall i :: 0 <= i < k ==> files[i].filename != name
    ensures k == -1 ==> forall i :: 0 <= i < |files| ==> files[i].filename != name
  {
    if files == [] then -1
    else if files[0].filename == name then 0
    else
      var k := Find(files[1..], name);
      if k == -1 then -1 else k + 1
  }

  function Without(files: seq<Executable>, name: string): (r: seq<Executable>) {
    var k := Find(files, name);
    if k == -1 then files else files[..k] + files[k + 1..]
  }

  // The unbounded list: move to front.
  function SetFile(files: seq<Executable>, name: string, kind: int): seq<Executable> {
    [Executable(name, kind)] + Without(files, name)
  }

  function Bounded(files: seq<Executable>): seq<Executable> {
    if |files| > MAX_FILES then files[..MAX_FILES] else files
  }

  // set_current_file: at most one entry can be too many.
  function SetCurrent(files: seq<Executable>, name: string, kind: int): seq<Executable> {
    var added := SetFile(files, name, kind);
    if |added| > MAX_FILES then added[..|added| - 1] else added
  }

  // put_file_on_top: nothing happens for a name that is not listed.
  function PutOnTop(files: seq<Executable>, name: string): seq<Executable> {
    var k := Find(files, name);
    if k == -1 then files else SetCurrent(files, name, files[k].kind)
  }

  function PutOnTopUnbounded(files: seq<Executable>, name: string): seq<Executable> {
    var k := Find(files, name);
    if k == -1 then files else SetFile(files, name, files[k].kind)
  }

  lemma WithoutDistinct(files: seq<Executable>, name: string)
    requires Distinct(files)
    ensures Distinct(Without(files, name))
    ensures forall i :: 0 <= i < |Without(files, name)| ==> Without(files, name)[i].filename != name
  {
    var k := Find(files, name);
    if k >= 0 {
      var r := Without(files, name);
      assert forall i :: 0 <= i < |r| ==> r[i] == if i < k then files[i] else files[i + 1];
    }
  }

  lemma SetDistinct(files: seq<Executable>, name: string, kind: int)
    requires Distinct(files)
    ensures Distinct(SetFile(files, name, kind)) && SetFile(files, name, kind)[0] == Executable(name, kind)
  {
    WithoutDistinct(files, name);
    var rest := Without(files, name);
    var r := SetFile(files, name, kind);
    assert forall i :: 1 <= i < |r| ==> r[i] == rest[i - 1];
  }

  // Searching the front finds what searching everything finds there.
  lemma {:induction false} FindInFront(files: seq<Executable>, n: nat, name: string)
    requires n <= |files|
    ensures Find(files[..n], name) == if 0 <= Find(files, name) < n then Find(files, name) else -1
    decreases n
  {
    if n > 0 && files[0].filename != name {
      FindInFront(files[1..], n - 1, name);
      assert files[..n][1..] == files[1..][..n - 1];
    }
  }

  // Removing entry k and then cutting, against cutting first.
  lemma CutRemoved<T>(s: seq<T>, k: nat, n: nat)
    requires k < |s|
    ensures k < n <= |s| ==> (s[..k] + s[k + 1..])[..n - 1] == s[..n][..k] + s[..n][k + 1..]
    ensures 0 < n <= k ==> (s[..k] + s[k + 1..])[..n - 1] == s[..n - 1]
  {
  }

  lemma CutPrepended<T>(x: T, s: seq<T>, n: nat)
    requires 0 < n <= |s| + 1
    ensures ([x] + s)[..n] == [x] + s[..n - 1]
  {
  }

  // The one entry set_current_file drops is the only one too many.
  lemma SetCuts(files: seq<Executable>, name: string, kind: int)
    requires |files| <= MAX_FILES
    ensures SetCurrent(files, name, kind) == Bounded(SetFile(files, name, kind))
  {
    hide Find, Without;
    WithoutLength(files, name);
  }

  lemma WithoutLength(files: seq<Executable>, name: string)
    ensures |Without(files, name)| == if Find(files, name) == -1 then |files| else |files| - 1
  {
  }

  // The part of what is kept that can still be seen after the prepend.
  lemma WithoutFront(all: seq<Executable>, n: nat, name: string)
    requires 0 < n < |all|
    ensures |Without(all[..n], name)| >= n - 1 && |Without(all, name)| >= n
    ensures Without(all[..n], name)[..n - 1] == Without(all, name)[..n - 1]
  {
    hide Find;
    FindInFront(all, n, name);
    var k := Find(all, name);
    if k == -1 || k >= n {
      assert Without(all[..n], name) == all[..n];
      assert all[..n][..n - 1] == all[..n - 1];
      if k >= n {
        CutRemoved(all, k, n);
      }
    } else {
      CutRemoved(all, k, n);
      assert Without(all[..n], name) == all[..n][..k] + all[..n][k + 1..];
    }
  }

  /** Setting a file commutes with forgetting all but the first 8. */
  lemma SetRefines(all: seq<Executable>, name: string, kind: int)
    ensures SetCurrent(Bounded(all), name, kind) == Bounded(SetFile(all, name, kind))
  {
    hide Find, Without, SetCurrent;
    SetCuts(Bounded(all), name, kind);
    if |all| > MAX_FILES {
      var x := Executable(name, kind);
      WithoutFront(all, MAX_FILES, name);
      CutPrepended(x, Without(all, name), MAX_FILES);
      CutPrepended(x, Without(all[..MAX_FILES], name), MAX_FILES);
    }
  }

  /** Putting a listed or unknown name on top commutes too; for a name that has
      been forgotten the bounded list does nothing, and the two part. */
  lemma PutRefines(all: seq<Executable>, name: string)
    requires Distinct(all)
    ensures PutOnTop(Bounded(all), name) == Bounded(PutOnTopUnbounded(all, name)) <==> Find(all, name) < MAX_FILES
  {
    var n := if |all| > MAX_FILES then MAX_FILES else |all|;
    assert Bounded(all) == all[..n];
    FindInFront(all, n, name);
    var k := Find(all, name);
    if 0 <= k < MAX_FILES {
      SetRefines(all, name, all[k].kind);
    } else if k >= MAX_FILES {
      assert PutOnTop(Bounded(all), name) == all[..n];
      assert Bounded(PutOnTopUnbounded(all, name))[0].filename == name;
      assert all[0].filename != name;
    }
  }

  const NINE: seq<Executable> :=
    [Executable("a", 0), Executable("b", 0), Executable("c", 0), Executable("d", 0), Executable("e", 0),
     Executable("f", 0), Executable("g", 0), Executable("h", 0), Executable("i", 0)]

  /** Nine files set, the oldest put on top: the bounded list has forgotten it. */
  lemma ForgottenFile()
    ensures PutOnTop(Bounded(NINE), "i") == Bounded(NINE)
    ensures Bounded(PutOnTopUnbounded(NINE, "i"))[0].filename == "i"
  {
    assert NINE[8].filename == "i";
    assert forall k :: 0 <= k < 8 ==> NINE[k].filename[0] != 'i';
    var k := Find(NINE, "i");
    assert k == 8;
    FindInFront(NINE, 8, "i");
  }

  datatype Request = Set(name: string, kind: int) | Put(name: string)

  function Apply(files: seq<Executable>, r: Request): seq<Executable> {
    match r
    case Set(name, kind) => SetCurrent(files, name, kind)
    case Put(name) => PutOnTop(files, name)
  }

  function ApplyUnbounded(all: seq<Executable>, r: Request): seq<Executable> {
    match r
    case Set(name, kind) => SetFile(all, name, kind)
    case Put(name) => PutOnTopUnbounded(all, name)
  }

  // Puts name only files that are among the first 8 or were never set.
  predicate Remembered(all: seq<Executable>, requests: seq<Request>)
    decreases |requests|
  {
    requests == [] ||
    ((requests[0].Put? ==> Find(all, requests[0].name) < MAX_FILES) &&
     Remembered(ApplyUnbounded(all, requests[0]), requests[1..]))
  }

  function Run(files: seq<Executable>, requests: seq<Request>): seq<Executable>
    decreases |requests|
  {
    if requests == [] then files else Run(Apply(files, requests[0]), requests[1..])
  }

  function RunUnbounded(all: seq<Executable>, requests: seq<Request>): seq<Executable>
    decreases |requests|
  {
    if requests == [] then all else RunUnbounded(ApplyUnbounded(all, requests[0]), requests[1..])
  }

  lemma ApplyDistinct(all: seq<Executable>, r: Request)
    requires Distinct(all)
    ensures Distinct(ApplyUnbounded(all, r))
  {
    match r
    case Set(name, kind) => SetDistinct(all, name, kind);
    case Put(name) =>
      if Find(all, name) >= 0 {
        SetDistinct(all, name, all[Find(all, name)].kind);
      }
  }

  // The two lists agree now and after every further request.
  predicate Agree(files: seq<Executable>, all: seq<Executable>, requests: seq<Request>)
    decreases |requests|
  {
    files == Bounded(all) &&
    (requests != [] ==> Agree(Apply(files, requests[0]), ApplyUnbounded(all, requests[0]), requests[1..]))
  }

  /** The list stays the first 8 of the unbounded one all through a run if and
      only if the run never puts a forgotten name on top. */
  lemma {:induction false} RunRefines(all: seq<Executable>, requests: seq<Request>)
    requires Distinct(all)
    ensures Agree(Bounded(all), all, requests) <==> Remembered(all, requests)
    decreases |requests|
  {
    if requests != [] {
      ApplyDistinct(all, requests[0]);
      match requests[0] {
        case Set(name, kind) => SetRefines(all, name, kind);
        case Put(name) => PutRefines(all, name);
      }
      RunRefines(ApplyUnbounded(all, requests[0]), requests[1..]);
    }
  }

  /** So such a run ends in the first 8 of the unbounded list. */
  lemma {:induction false} AgreeAtEnd(files: seq<Executable>, all: seq<Executable>, requests: seq<Request>)
    requires Agree(files, all, requests)
    ensures Run(files, requests) == Bounded(RunUnbounded(all, requests))
    decreases |requests|
  {
    if requests != [] {
      AgreeAtEnd(Apply(files, requests[0]), ApplyUnbounded(all, requests[0]), requests[1..]);
    }
  }

  /** Every run, whatever it names, keeps at most 8 distinct names. */
  lemma {:induction false} RunKeepsBound(files: seq<Executable>, requests: seq<Request>)
    requires Distinct(files) && |files| <= MAX_FILES
    ensures Distinct(Run(files, requests)) && |Run(files, requests)| <= MAX_FILES
    decreases |requests|
  {
    if requests != [] {
      ApplyDistinct(files, requests[0]);
      BoundedApply(files, requests[0]);
      RunKeepsBound(Apply(files, requests[0]), requests[1..]);
    }
  }

  lemma BoundedApply(files: seq<Executable>, r: Request)
    requires |files| <= MAX_FILES
    ensures Apply(files, r) == Bounded(ApplyUnbounded(files, r))
  {
    assert Bounded(files) == files;
    match r
    case Set(name, kind) => SetRefines(files, name, kind);
    case Put(name) =>
      if Find(files, name) >= 0 {
        SetRefines(files, name, files[Find(files, name)].kind);
      }
  }

  // Whether a name has been set at all.
  predicate Known(requests: seq<Request>, name: string)
    decreases |requests|
  {
    requests != [] &&
    (var n := |requests| - 1; (requests[n].Set? && requests[n].name == name) || Known(requests[..n], name))
  }

  // When a name was last set or put on top; a put of an unknown name is no use.
  function LastUse(requests: seq<Request>, name: string): int
    decreases |requests|
  {
    if requests == [] then -1
    else
      var n := |requests| - 1;
      if requests[n].name == name && (requests[n].Set? || Known(requests[..n], name)) then n
      else LastUse(requests[..n], name)
  }

  // The type it was last set with.
  function LastKind(requests: seq<Request>, name: string): int
    decreases |requests|
  {
    if requests == [] then 0
    else
      var n := |requests| - 1;
      if requests[n].Set? && requests[n].name == name then requests[n].kind else LastKind(requests[..n], name)
  }

  predicate Ordered(all: seq<Executable>, requests: seq<Request>) {
    forall i, j :: 0 <= i < j < |all| ==> LastUse(requests, all[i].filename) > LastUse(requests, all[j].filename)
  }

  predicate LatestKinds(all: seq<Executable>, requests: seq<Request>) {
    forall i :: 0 <= i < |all| ==>
      Known(requests, all[i].filename) && all[i].kind == LastKind(requests, all[i].filename)
  }

  // Every known name, latest used first, with its latest type.
  ghost predicate ByRecency(all: seq<Executable>, requests: seq<Request>) {
    && Ordered(all, requests) && LatestKinds(all, requests)
    && (forall name: string :: Known(requests, name) ==> Find(all, name) >= 0)
  }

  lemma {:induction false} RunSnoc(all: seq<Executable>, requests: seq<Request>, r: Request)
    ensures RunUnbounded(all, requests + [r]) == ApplyUnbounded(RunUnbounded(all, requests), r)
    decreases |requests|
  {
    if requests != [] {
      assert (requests + [r])[0] == requests[0] && (requests + [r])[1..] == requests[1..] + [r];
      RunSnoc(ApplyUnbounded(all, requests[0]), requests[1..], r);
    } else {
      assert ([] + [r])[1..] == [];
    }
  }

  lemma {:induction false} UsedBefore(requests: seq<Request>, name: string)
    ensures LastUse(requests, name) < |requests|
    decreases |requests|
  {
    if requests != [] {
      UsedBefore(requests[..|requests| - 1], name);
    }
  }

  // Moving one name to the front keeps the order of the others.
  lemma OneToFront(all: seq<Executable>, requests: seq<Request>, r: Request)
    requires ByRecency(all, requests) && Distinct(all)
    requires r.Set? || Known(requests, r.name)
    ensures ByRecency(SetFile(all, r.name, if r.Set? then r.kind else LastKind(requests, r.name)), requests + [r])
  {
    hide LastUse, Known, LastKind, Find, Ordered, LatestKinds, Without;
    var kind := if r.Set? then r.kind else LastKind(requests, r.name);
    WithoutDistinct(all, r.name);
    RestKept(all, requests, r.name);
    FrontOrdered(Without(all, r.name), requests, r);
    FrontKinds(Without(all, r.name), requests, r, kind);
    forall name: string | Known(requests + [r], name)
      ensures Find(SetFile(all, r.name, kind), name) >= 0
    {
      OneUse(requests, r, name);
      Listed(all, r.name, kind, name);
    }
  }

  lemma RestKept(all: seq<Executable>, requests: seq<Request>, name: string)
    requires Ordered(all, requests) && LatestKinds(all, requests)
    ensures Ordered(Without(all, name), requests) && LatestKinds(Without(all, name), requests)
  {
    hide LastUse, Known, LastKind, Find;
    var k, rest := Find(all, name), Without(all, name);
    assert forall i :: 0 <= i < |rest| ==> rest[i] == if k == -1 || i < k then all[i] else all[i + 1];
  }

  lemma FrontOrdered(rest: seq<Executable>, requests: seq<Request>, r: Request)
    requires Ordered(rest, requests) && forall i :: 0 <= i < |rest| ==> rest[i].filename != r.name
    requires r.Set? || Known(requests, r.name)
    ensures forall kind: int :: Ordered([Executable(r.name, kind)] + rest, requests + [r])
  {
    hide LastUse, Known;
    forall kind: int
      ensures Ordered([Executable(r.name, kind)] + rest, requests + [r])
    {
      var files := [Executable(r.name, kind)] + rest;
      forall i | 0 <= i < |files|
        ensures LastUse(requests + [r], files[i].filename) ==
                if i == 0 then |requests| else LastUse(requests, rest[i - 1].filename)
        ensures i > 0 ==> LastUse(requests, rest[i - 1].filename) < |requests|
      {
        OneUse(requests, r, files[i].filename);
        UsedBefore(requests, files[i].filename);
      }
    }
  }

  lemma FrontKinds(rest: seq<Executable>, requests: seq<Request>, r: Request, kind: int)
    requires LatestKinds(rest, requests) && forall i :: 0 <= i < |rest| ==> rest[i].filename != r.name
    requires r.Set? || Known(requests, r.name)
    requires kind == if r.Set? then r.kind else LastKind(requests, r.name)
    ensures LatestKinds([Executable(r.name, kind)] + rest, requests + [r])
  {
    hide LastUse, Known, LastKind;
    var files := [Executable(r.name, kind)] + rest;
    OneKind(requests, r);
    forall i | 0 <= i < |files|
      ensures Known(requests + [r], files[i].filename) && files[i].kind == LastKind(requests + [r], files[i].filename)
    {
      OneUse(requests, r, files[i].filename);
      if i > 0 {
        assert files[i] == rest[i - 1];
      }
    }
  }

  lemma OneUse(requests: seq<Request>, r: Request, name: string)
    requires r.Set? || Known(requests, r.name)
    ensures LastUse(requests + [r], name) == if name == r.name then |requests| else LastUse(requests, name)
    ensures Known(requests + [r], name) <==> (name == r.name || Known(requests, name))
    ensures name != r.name ==> LastKind(requests + [r], name) == LastKind(requests, name)
  {
    assert (requests + [r])[..|requests|] == requests;
  }

  lemma OneKind(requests: seq<Request>, r: Request)
    ensures LastKind(requests + [r], r.name) == if r.Set? then r.kind else LastKind(requests, r.name)
  {
    assert (requests + [r])[..|requests|] == requests;
  }

  // What is listed, or moved to the front, is found.
  lemma Listed(all: seq<Executable>, moved: string, kind: int, name: string)
    requires name == moved || Find(all, name) >= 0
    ensures Find(SetFile(all, moved, kind), name) >= 0
  {
    var files, rest, k, n := SetFile(all, moved, kind), Without(all, moved), Find(all, moved), Find(all, name);
    if name == moved {
      assert files[0].filename == name;
    } else if k == -1 || n < k {
      assert files[n + 1] == rest[n] == all[n];
    } else {
      assert n != k && files[n] == rest[n - 1] == all[n];
    }
  }

  /** What the unbounded list is: after any requests, every name ever set, the one
      used last first, each with the type it was set with last. */
  lemma {:induction false} ListsByRecency(requests: seq<Request>)
    ensures ByRecency(RunUnbounded([], requests), requests) && Distinct(RunUnbounded([], requests))
    decreases |requests|
  {
    hide ByRecency, LastUse, Known, LastKind, Find, SetFile;
    if requests == [] {
      NothingYet();
    } else {
      var n := |requests| - 1;
      var before, r := requests[..n], requests[n];
      assert requests == before + [r];
      ListsByRecency(before);
      RunSnoc([], before, r);
      var all := RunUnbounded([], before);
      ApplyDistinct(all, r);
      Used(all, before, r);
    }
  }

  lemma NothingYet()
    ensures ByRecency(RunUnbounded([], []), []) && Distinct(RunUnbounded([], []))
  {
  }

  lemma Used(all: seq<Executable>, requests: seq<Request>, r: Request)
    requires ByRecency(all, requests) && Distinct(all)
    ensures ByRecency(ApplyUnbounded(all, r), requests + [r])
  {
    hide LastUse, Known, LastKind, SetFile;
    var k := Find(all, r.name);
    if r.Set? {
      OneToFront(all, requests, r);
    } else if k >= 0 {
      OneToFront(all, requests, r);
    } else {
      forall name: string
        ensures LastUse(requests + [r], name) == LastUse(requests, name)
        ensures Known(requests + [r], name) == Known(requests, name)
        ensures LastKind(requests + [r], name) == LastKind(requests, name)
      {
        NoUse(requests, r, name);
      }
    }
  }

  lemma NoUse(requests: seq<Request>, r: Request, name: string)
    requires r.Put? && !Known(requests, r.name)
    ensures LastUse(requests + [r], name) == LastUse(requests, name)
    ensures Known(requests + [r], name) == Known(requests, name)
    ensures LastKind(requests + [r], name) == LastKind(requests, name)
  {
    assert (requests + [r])[..|requests|] == requests;
  }

  class RecentFiles {
    var files: seq<Executable>

    constructor ()
      ensures files == []
    {
      files := [];
    }

    static method FindFile(files: seq<Executable>, name: string) returns (k: int)
      ensures k == Find(files, name)
    {
      var i, c := 0, |files|;
      assert files[0..] == files;
      while i < c
        invariant 0 <= i <= c
        invariant Find(files, name) == if Find(files[i..], name) == -1 then -1 else i + Find(files[i..], name)
      {
        if files[i].filename == name {
          return i;
        }
        assert files[i..][1..] == files[i + 1..];
        i := i + 1;
      }
      return -1;
    }

    method SetCurrentFile(name: string, kind: int)
      modifies this
      ensures files == SetCurrent(old(files), name, kind)
    {
      var existing := FindFile(files, name);
      if existing != -1 {
        files := files[..existing] + files[existing + 1..];
      }
      files := [Executable(name, kind)] + files;
      if |files| > MAX_FILES {
        files := files[..|files| - 1];
      }
    }

    method PutFileOnTop(name: string)
      modifies this
      ensures files == PutOnTop(old(files), name)
    {
      var index := FindFile(files, name);
      if index == -1 {
        return;
      }
      SetCurrentFile(name, files[index].kind);
    }
  }
}
