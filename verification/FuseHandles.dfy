/**
 * The open, create and release operations of the file system over the shared maps, one whole call
 * at a time. Each call's lines are steps of the machine in OpenHandles.
 */
module FuseHandles {
  import opened OpenHandles

  datatype Option<T> = None | Some(value: T)

  /** What the size query before an open finds. */
  datatype Stat = Size(bytes: nat) | Missing | Failed

  class OpenFiles {
    var openFiles: map<Path, int>

    constructor ()
      ensures openFiles == map[]
    {
      openFiles := map[];
    }

    method RegisterOpenFile(path: Path)
      modifies this
      ensures openFiles == Register(old(openFiles), path)
    {
      if path !in openFiles {
        openFiles := openFiles[path := 1];
      } else {
        openFiles := openFiles[path := openFiles[path] + 1];
      }
    }

    method ReleaseOpenFile(path: Path)
      modifies this
      ensures openFiles == Deregister(old(openFiles), path)
    {
      if path !in openFiles {
        return;
      }
      openFiles := openFiles[path := openFiles[path] - 1];
      if openFiles[path] <= 0 {
        openFiles := openFiles - {path};
      }
    }

    method IsOpen(path: Path) returns (isOpen: bool)
      ensures isOpen == (path in openFiles)
    {
      isOpen := path in openFiles;
    }
  }

  class FusePriv {
    var fdToPath: map<int, Path>
    var sizeAtOpen: map<int, nat>

    constructor ()
      ensures fdToPath == map[] && sizeAtOpen == map[]
    {
      fdToPath, sizeAtOpen := map[], map[];
    }

    method InsertFdToPath(fd: int, path: Path)
      modifies this
      ensures fdToPath == InsertPath(old(fdToPath), fd, path) && sizeAtOpen == old(sizeAtOpen)
    {
      if fd in fdToPath {
        // already defined: the copy made here is assigned to a local variable only
      } else {
        fdToPath := fdToPath[fd := path];
      }
    }

    method RemoveFdToPath(fd: int)
      modifies this
      ensures fdToPath == old(fdToPath) - {fd} && sizeAtOpen == old(sizeAtOpen)
    {
      fdToPath := fdToPath - {fd};
    }

    method InsertSizeAtOpen(fd: int, size: nat)
      modifies this
      ensures sizeAtOpen == old(sizeAtOpen)[fd := size] && fdToPath == old(fdToPath)
    {
      sizeAtOpen := sizeAtOpen[fd := size];
    }

    method RemoveSizeAtOpen(fd: int)
      modifies this
      ensures sizeAtOpen == old(sizeAtOpen) - {fd} && fdToPath == old(fdToPath)
    {
      sizeAtOpen := sizeAtOpen - {fd};
    }
  }

  /** A handle opened: both maps gain its descriptor and the path's count goes up by one. */
  function AfterOpen(s: State, path: Path, fd: int, size: nat): State {
    State(Register(s.counts, path), s.paths[fd := path], s.sizes[fd := size], s.descriptors + {fd},
          s.sessions + [Live(path, fd, size)])
  }

  /** States that follow one another by lines of the machine. */
  ghost predicate Lines(run: seq<State>) {
    run != [] && forall k: nat :: k + 1 < |run| ==> StepAt(run, k)
  }

  lemma {:induction false} LinesKeep(run: seq<State>, k: nat)
    requires Lines(run) && Inv(run[0]) && k < |run|
    ensures Inv(run[k])
  {
    if k > 0 {
      LinesKeep(run, k - 1);
      assert StepAt(run, k - 1);
      AnyStepInv(run[k - 1], run[k]);
    }
  }

  /** What has become of one session, state by state. */
  predicate Passes(run: seq<State>, i: nat, stages: seq<Session>) {
    |run| == |stages| && forall k :: 0 <= k < |run| ==> i < |run[k].sessions| && run[k].sessions[i] == stages[k]
  }

  /** The lines of a successful open, or of a create, which stores the path before the size. */
  function OpenRun(s: State, path: Path, fd: int, size: nat, creates: bool): (run: seq<State>) {
    var counts, held := Register(s.counts, path), s.descriptors + {fd};
    [s, Begin(s, path, size),
     State(counts, s.paths, s.sizes, held, s.sessions + [Opened(path, fd, size)]),
     if creates then State(counts, s.paths[fd := path], s.sizes, held, s.sessions + [PathIn(path, fd, size)])
     else State(counts, s.paths, s.sizes[fd := size], held, s.sessions + [SizeIn(path, fd, size)]),
     AfterOpen(s, path, fd, size)]
  }

  lemma FreshDescriptor(s: State, path: Path, fd: int)
    requires Inv(s) && fd !in s.descriptors
    ensures fd !in s.paths && fd !in s.sizes
  {
  }

  lemma LastReplaced(sessions: seq<Session>, p: Session, q: Session)
    ensures (sessions + [p])[|sessions| := q] == sessions + [q]
  {
  }

  /** A successful open or create is four lines of the machine, through the stages named. */
  lemma OpenSteps(s: State, path: Path, fd: int, size: nat, creates: bool) returns (run: seq<State>)
    requires Inv(s) && fd !in s.descriptors
    ensures Lines(run) && run[0] == s && run[|run| - 1] == AfterOpen(s, path, fd, size)
    ensures Passes(run[1..], |s.sessions|, [Registered(path, size), Opened(path, fd, size),
              if creates then PathIn(path, fd, size) else SizeIn(path, fd, size), Live(path, fd, size)])
    ensures fd !in s.paths && fd !in s.sizes && forall k :: 0 <= k < |run| ==> Inv(run[k])
  {
    FreshDescriptor(s, path, fd);
    run := OpenRun(s, path, fd, size, creates);
    OpenRunSteps(s, path, fd, size, creates);
    forall k | 0 <= k < |run| ensures Inv(run[k]) {
      LinesKeep(run, k);
    }
  }

  lemma OpenRunSteps(s: State, path: Path, fd: int, size: nat, creates: bool)
    requires fd !in s.descriptors && fd !in s.paths
    ensures Lines(OpenRun(s, path, fd, size, creates))
  {
    var run, n := OpenRun(s, path, fd, size, creates), |s.sessions|;
    var between := if creates then PathIn(path, fd, size) else SizeIn(path, fd, size);
    LastReplaced(s.sessions, Registered(path, size), Opened(path, fd, size));
    LastReplaced(s.sessions, Opened(path, fd, size), between);
    LastReplaced(s.sessions, between, Live(path, fd, size));
    assert run[1] == Begin(run[0], path, size);
    assert SessionStep(run[1], run[2], n);
    assert SessionStep(run[2], run[3], n);
    assert SessionStep(run[3], run[4], n);
  }

  /** A refused open gives its count back. */
  lemma RefusedSteps(s: State, path: Path)
    requires Inv(s)
    ensures Inv(s.(sessions := s.sessions + [Gone]))
    ensures Deregister(Register(s.counts, path), path) == s.counts
  {
    var n := |s.sessions|;
    var s1 := Begin(s, path, 0);
    BeginInv(s, path, 0);
    var s2 := s1.(sessions := s1.sessions[n := Refused(path)]);
    assert SessionStep(s1, s2, n);
    StepInv(s1, s2, n);
    var s3 := s2.(counts := Deregister(s2.counts, path), sessions := s2.sessions[n := Gone]);
    assert SessionStep(s2, s3, n);
    StepInv(s2, s3, n);
    assert s3.sessions == s.sessions + [Gone];
    assert s3.counts == s.counts;
  }

  function AfterRelease(s: State, i: nat): State
    requires i < |s.sessions| && s.sessions[i].Live?
  {
    var p := s.sessions[i];
    State(Deregister(s.counts, p.path), s.paths - {p.fd}, s.sizes - {p.fd}, s.descriptors - {p.fd},
          s.sessions[i := Gone])
  }

  /** The lines of a successful release; closing the descriptor is the last. */
  function ReleaseRun(s: State, i: nat): (run: seq<State>)
    requires i < |s.sessions| && s.sessions[i].Live?
  {
    var path, fd, size := s.sessions[i].path, s.sessions[i].fd, s.sessions[i].size;
    var counts := Deregister(s.counts, path);
    [s, s.(sessions := s.sessions[i := Closing(path, fd, size)]),
     s.(counts := counts, sessions := s.sessions[i := Unregistered(path, fd, size)]),
     s.(counts := counts, paths := s.paths - {fd}, sessions := s.sessions[i := PathOut(fd, size)]),
     s.(counts := counts, paths := s.paths - {fd}, sizes := s.sizes - {fd}, sessions := s.sessions[i := SizeOut(fd)]),
     AfterRelease(s, i)]
  }

  lemma ReleaseRunSteps(s: State, i: nat)
    requires i < |s.sessions| && s.sessions[i].Live?
    requires var p := s.sessions[i]; p.fd in s.paths && s.paths[p.fd] == p.path
    ensures Lines(ReleaseRun(s, i))
  {
    var run := ReleaseRun(s, i);
    assert SessionStep(run[0], run[1], i);
    assert SessionStep(run[1], run[2], i);
    assert SessionStep(run[2], run[3], i);
    assert SessionStep(run[3], run[4], i);
    assert SessionStep(run[4], run[5], i);
  }

  /** A successful release is five lines of the machine, through the stages named. */
  lemma ReleaseSteps(s: State, i: nat) returns (run: seq<State>)
    requires Inv(s) && i < |s.sessions| && s.sessions[i].Live?
    ensures Lines(run) && run[0] == s && run[|run| - 1] == AfterRelease(s, i)
    ensures var path, fd, size := s.sessions[i].path, s.sessions[i].fd, s.sessions[i].size;
      Passes(run, i, [Live(path, fd, size), Closing(path, fd, size), Unregistered(path, fd, size),
                      PathOut(fd, size), SizeOut(fd), Gone])
    ensures forall k :: 0 <= k < |run| ==> Inv(run[k])
  {
    NoStaleEntry(s, i);
    run := ReleaseRun(s, i);
    ReleaseRunSteps(s, i);
    forall k | 0 <= k < |run| ensures Inv(run[k]) {
      LinesKeep(run, k);
    }
  }

  /** Of the handles only the one of descriptor fd has changed, and is gone or stuck. */
  predicate OnlyHandle(before: seq<Session>, after: seq<Session>, fd: int) {
    |before| == |after| && forall j :: 0 <= j < |before| && after[j] != before[j] ==>
      before[j].Live? && before[j].fd == fd && (after[j].Gone? || (after[j].Stuck? && after[j].fd == fd))
  }

  lemma MappedIsLive(s: State, fd: int) returns (i: nat)
    requires Inv(s) && Quiet(s.sessions) && fd in s.paths
    ensures fd in s.sizes && i < |s.sessions|
    ensures s.sessions[i] in [Live(s.paths[fd], fd, s.sizes[fd]), Stuck(s.paths[fd], fd, s.sizes[fd])]
  {
    i :| PathOf(s.sessions, i, fd);
  }

  /** The FUSE operations as far as open handles go. */
  class HandleTable {
    const openFiles: OpenFiles
    const priv: FusePriv
    var descriptors: set<int>
    ghost var sessions: seq<Session>

    constructor (descriptors: set<int>)
      ensures Valid() && fresh(openFiles) && fresh(priv)
      ensures View() == State(map[], map[], map[], descriptors, [])
    {
      openFiles := new OpenFiles();
      priv := new FusePriv();
      this.descriptors, sessions := descriptors, [];
    }

    ghost function View(): State
      reads this, openFiles, priv
    {
      State(openFiles.openFiles, priv.fdToPath, priv.sizeAtOpen, descriptors, sessions)
    }

    ghost predicate Valid()
      reads this, openFiles, priv
    {
      Inv(View()) && Quiet(sessions)
    }

    /** fullpath is where the index says the file is; fd is what ::open returns. */
    method Open(fullpath: Path, found: bool, stat: Stat, mayCreate: bool, fd: Option<int>) returns (handle: Option<int>)
      requires Valid() && (fd.Some? ==> fd.value !in descriptors)
      modifies this, openFiles, priv
      ensures Valid()
      ensures handle == if !found || stat == Failed || (stat == Missing && !mayCreate) then None else fd
      ensures handle.Some? ==> handle.value !in old(View()).paths && handle.value !in old(View()).sizes
      ensures handle.Some? ==>
        View() == AfterOpen(old(View()), fullpath, handle.value, if stat.Size? then stat.bytes else 0)
      ensures handle.Some? ==>
        && priv.sizeAtOpen == old(priv.sizeAtOpen)[handle.value := if stat.Size? then stat.bytes else 0]
        && priv.fdToPath == old(priv.fdToPath)[handle.value := fullpath]
        && sessions == old(sessions) + [Live(fullpath, handle.value, if stat.Size? then stat.bytes else 0)]
      ensures handle.None? ==> View().(sessions := []) == old(View()).(sessions := [])
      ensures handle.None? ==> sessions == old(sessions) || sessions == old(sessions) + [Gone]
    {
      if !found {
        return None;
      }
      var size := 0;
      match stat {
        case Size(bytes) => size := bytes;
        case Missing => if !mayCreate { return None; }
        case Failed => return None;
      }
      ghost var before := View();
      openFiles.RegisterOpenFile(fullpath);
      if fd.None? {
        openFiles.ReleaseOpenFile(fullpath);
        RefusedSteps(before, fullpath);
        sessions := sessions + [Gone];
        return None;
      }
      ghost var run := OpenSteps(before, fullpath, fd.value, size, false);
      descriptors := descriptors + {fd.value};
      priv.InsertSizeAtOpen(fd.value, size);
      priv.InsertFdToPath(fd.value, fullpath);
      sessions := sessions + [Live(fullpath, fd.value, size)];
      handle := fd;
    }

    /** fullpath lies in the first tier; fd is what ::creat returns. */
    method Create(fullpath: Path, fd: Option<int>) returns (handle: Option<int>)
      requires Valid() && (fd.Some? ==> fd.value !in descriptors)
      modifies this, openFiles, priv
      ensures Valid() && handle == fd
      ensures handle.Some? ==> handle.value !in old(View()).paths && handle.value !in old(View()).sizes
      ensures handle.Some? ==> View() == AfterOpen(old(View()), fullpath, handle.value, 0)
      ensures handle.Some? ==>
        && priv.sizeAtOpen == old(priv.sizeAtOpen)[handle.value := 0]
        && priv.fdToPath == old(priv.fdToPath)[handle.value := fullpath]
        && sessions == old(sessions) + [Live(fullpath, handle.value, 0)]
      ensures handle.None? ==> View().(sessions := []) == old(View()).(sessions := [])
      ensures handle.None? ==> sessions == old(sessions) || sessions == old(sessions) + [Gone]
    {
      ghost var before := View();
      openFiles.RegisterOpenFile(fullpath);
      if fd.None? {
        openFiles.ReleaseOpenFile(fullpath);
        RefusedSteps(before, fullpath);
        sessions := sessions + [Gone];
        return None;
      }
      ghost var run := OpenSteps(before, fullpath, fd.value, 0, true);
      descriptors := descriptors + {fd.value};
      priv.InsertFdToPath(fd.value, fullpath);
      priv.InsertSizeAtOpen(fd.value, 0);
      sessions := sessions + [Live(fullpath, fd.value, 0)];
      handle := fd;
    }

    /**
     * size is what fstat on the descriptor finds. The kernel releases a handle once. resized is the
     * size at open and the size now, for the tier's usage.
     */
    method Release(fd: int, size: Option<nat>) returns (closed: bool, resized: Option<(nat, nat)>)
      requires Valid() && forall p <- sessions :: p.Stuck? ==> p.fd != fd
      modifies this, openFiles, priv
      ensures Valid()
      ensures var s := old(View());
        if fd !in s.paths then closed && resized == None && View() == s.(descriptors := s.descriptors - {fd})
        else if size.None? then !closed && View().(sessions := []) == s.(sessions := [])
        else
          && closed && fd in s.sizes && resized == Some((s.sizes[fd], size.value))
          && exists i: nat :: i < |s.sessions| && s.sessions[i] == Live(s.paths[fd], fd, resized.value.0)
                              && View() == AfterRelease(s, i)
      ensures OnlyHandle(old(sessions), sessions, fd)
    {
      resized := None;
      ghost var before := View();
      if fd in priv.fdToPath {
        var fullpath := priv.fdToPath[fd];
        ghost var i := MappedIsLive(before, fd);
        if fd in priv.sizeAtOpen {
          if size.None? {
            sessions := sessions[i := Stuck(fullpath, fd, priv.sizeAtOpen[fd])];
            StepInv(before, View(), i);
            return false, None;
          }
          resized := Some((priv.sizeAtOpen[fd], size.value));
        }
        openFiles.ReleaseOpenFile(fullpath);
        priv.RemoveFdToPath(fd);
        priv.RemoveSizeAtOpen(fd);
        ghost var run := ReleaseSteps(before, i);
        sessions := sessions[i := Gone];
      }
      descriptors := descriptors - {fd};
      closed := true;
    }
  }

  /** A call some other user of the file system makes; descriptors it is given are unused ones. */
  datatype Call =
    | OpenCall(fullpath: Path, found: bool, stat: Stat, mayCreate: bool, fd: Option<int>)
    | CreateCall(fullpath: Path, fd: Option<int>)
    | ReleaseCall(held: int, size: Option<nat>)

  /** None of the given descriptors belongs to a handle whose release gave up. */
  ghost predicate Releasable(sessions: seq<Session>, fds: set<int>) {
    forall p <- sessions :: p.Stuck? ==> p.fd !in fds
  }

  function Unused(fd: Option<int>, descriptors: set<int>): (r: Option<int>)
    ensures r.Some? ==> r.value !in descriptors
  {
    if fd.Some? && fd.value in descriptors then None else fd
  }

  /** One call by the user of the given descriptors. */
  method Perform(table: HandleTable, call: Call, fds: set<int>) returns (fds': set<int>)
    requires table.Valid() && Releasable(table.sessions, fds) && fds <= table.descriptors
    modifies table, table.openFiles, table.priv
    ensures table.Valid() && Releasable(table.sessions, fds') && fds' <= table.descriptors
    ensures fds' - fds !! old(table.descriptors)
    ensures |old(table.sessions)| <= |table.sessions|
    ensures forall j :: 0 <= j < |old(table.sessions)| && old(table.sessions)[j].Live?
                        && old(table.sessions)[j].fd !in fds ==>
      table.sessions[j] == old(table.sessions)[j]
  {
    fds' := fds;
    match call {
      case OpenCall(fullpath, found, stat, mayCreate, fd) =>
        var handle := table.Open(fullpath, found, stat, mayCreate, Unused(fd, table.descriptors));
        if handle.Some? {
          fds' := fds + {handle.value};
        }
      case CreateCall(fullpath, fd) =>
        var handle := table.Create(fullpath, Unused(fd, table.descriptors));
        if handle.Some? {
          fds' := fds + {handle.value};
        }
      case ReleaseCall(held, size) =>
        if held in fds {
          var closed, resized := table.Release(held, size);
          fds' := fds - {held};
        }
    }
  }

  /**
   * Whatever others open, create and release in between, the release of a handle reports the size its
   * own open found.
   */
  method UseThenRelease(table: HandleTable, fd: int, calls: seq<Call>, others: set<int>, n: nat, ghost i: nat)
    returns (resized: Option<(nat, nat)>)
    requires table.Valid() && i < |table.sessions| && table.sessions[i].Live? && table.sessions[i].fd == fd
    requires Releasable(table.sessions, others) && others <= table.descriptors - {fd}
    modifies table, table.openFiles, table.priv
    ensures table.Valid() && resized == Some((old(table.sessions)[i].size, n))
  {
    ghost var handle := table.sessions[i];
    var fds := others;
    for k := 0 to |calls|
      invariant table.Valid() && Releasable(table.sessions, fds) && fds <= table.descriptors
      invariant i < |table.sessions| && table.sessions[i] == handle && fd !in fds
    {
      HeldIsOpen(table.View(), i);
      fds := Perform(table, calls[k], fds);
    }
    LiveIsOnly(table.View(), i);
    var closed;
    closed, resized := table.Release(fd, Some(n));
  }

  /** A file opened at size b and released at size n is reported as having gone from b to n. */
  method OpenUseRelease(table: HandleTable, fullpath: Path, b: nat, fd: int, calls: seq<Call>, others: set<int>, n: nat)
    returns (resized: Option<(nat, nat)>)
    requires table.Valid() && fd !in table.descriptors
    requires Releasable(table.sessions, others) && others <= table.descriptors
    modifies table, table.openFiles, table.priv
    ensures table.Valid() && resized == Some((b, n))
  {
    var handle := table.Open(fullpath, true, Size(b), false, Some(fd));
    resized := UseThenRelease(table, fd, calls, others, n, |table.sessions| - 1);
  }

  /** A file created is reported as having grown from nothing. */
  method CreateUseRelease(table: HandleTable, fullpath: Path, fd: int, calls: seq<Call>, others: set<int>, n: nat)
    returns (resized: Option<(nat, nat)>)
    requires table.Valid() && fd !in table.descriptors
    requires Releasable(table.sessions, others) && others <= table.descriptors
    modifies table, table.openFiles, table.priv
    ensures table.Valid() && resized == Some((0, n))
  {
    var handle := table.Create(fullpath, Some(fd));
    resized := UseThenRelease(table, fd, calls, others, n, |table.sessions| - 1);
  }

  lemma HeldIsOpen(s: State, i: nat)
    requires Inv(s) && i < |s.sessions| && s.sessions[i].Holds()
    ensures s.sessions[i].fd in s.descriptors
  {
  }

  /** A live handle's entries are its own, and no other handle has its descriptor. */
  lemma LiveIsOnly(s: State, i: nat)
    requires Inv(s) && i < |s.sessions| && s.sessions[i].Live?
    ensures var p := s.sessions[i];
      && p.fd in s.paths && s.paths[p.fd] == p.path && p.fd in s.sizes && s.sizes[p.fd] == p.size
      && forall q <- s.sessions :: q.Stuck? ==> q.fd != p.fd
  {
    NoStaleEntry(s, i);
  }
}
